/**
 Fields and arrays of which every cell is accessed by at most one iteration of a parallel loop: the
 second traversal, which keeps one recorded pointer, or null, per field and per array.
 */
module UniquePointers {
  import opened Options
  import opened Words
  import opened LoopUnique
  import opened Alias

  predicate AccessesField(p: Program, snode: nat, k: nat) {
    k < |p| && p[k].GlobalPtr? && p[k].snode == snode
  }

  predicate AccessesArray(p: Program, arg: nat, k: nat) {
    k < |p| && p[k].ExternalPtr? && p[k].arg == arg
  }

  /** The result of `same_value` on two indices, which is not part of this model. */
  type Same = (nat, nat) -> bool

  ghost predicate SameSound(m: Machine, p: Program, same: Same) {
    forall a: nat, b: nat, x | a < |p| && b < |p| && Computed(m, p, x) && same(a, b) :: x.vals[a] == x.vals[b]
  }

  /******* What the entries mean *******/

  ghost predicate SameAddress(p: Program, diff: Differ, a: nat, b: nat) {
    && WellTargeted(p) && a < |p| && b < |p| && IsPtr(p[a]) && IsPtr(p[b])
    && AliasAnalysis(p, diff, Some(a), Some(b)).Same?
  }

  /** `a` is the first access to the field. */
  ghost predicate FirstField(p: Program, snode: nat, a: nat) {
    AccessesField(p, snode, a) && forall j | 0 <= j < a :: !AccessesField(p, snode, j)
  }

  ghost predicate FirstArray(p: Program, arg: nat, a: nat) {
    AccessesArray(p, arg, a) && forall j | 0 <= j < a :: !AccessesArray(p, arg, j)
  }

  /** Among the first `k` statements, every access to the field is definitely at the address of `a`,
      which is loop-unique. */
  ghost predicate OnlyThrough(p: Program, f: Facts, diff: Differ, snode: nat, k: nat, a: nat) {
    && AccessesField(p, snode, a) && LoopUniqueIndices(f, p[a].indices)
    && forall j | 0 <= j < k && AccessesField(p, snode, j) :: SameAddress(p, diff, a, j)
  }

  /** An entry after `k` statements: absent without access, and else the first access, or null when
      not all accesses are through it. */
  ghost predicate FieldEntry(p: Program, f: Facts, diff: Differ, snode: nat, k: nat, entry: Option<Option<nat>>) {
    match entry
    case None => forall j | 0 <= j < k :: !AccessesField(p, snode, j)
    case Some(e) =>
      exists a :: 0 <= a < k && FirstField(p, snode, a)
        && e == if OnlyThrough(p, f, diff, snode, k, a) then Some(a) else None
  }

  /** Where `j` has a loop-unique index, `a` has the same index. */
  ghost predicate Matches(p: Program, f: Facts, same: Same, a: nat, j: nat) {
    && a < |p| && j < |p| && p[a].ExternalPtr? && p[j].ExternalPtr? && |p[a].extIndices| == |p[j].extIndices|
    && forall i | 0 <= i < |p[j].extIndices| && p[j].extIndices[i] in f.unique ::
       same(p[j].extIndices[i], p[a].extIndices[i])
  }

  /** Every access to the array is loop-unique, and all but the first match the first. */
  ghost predicate OnlyLike(p: Program, f: Facts, same: Same, arg: nat, k: nat, a: nat) {
    forall j | 0 <= j < k && AccessesArray(p, arg, j) ::
      LoopUniqueIndices(f, p[j].extIndices) && (j == a || Matches(p, f, same, a, j))
  }

  ghost predicate ArrayEntry(p: Program, f: Facts, same: Same, arg: nat, k: nat, entry: Option<Option<nat>>) {
    match entry
    case None => forall j | 0 <= j < k :: !AccessesArray(p, arg, j)
    case Some(e) =>
      exists a :: 0 <= a < k && FirstArray(p, arg, a) && e == if OnlyLike(p, f, same, arg, k, a) then Some(a) else None
  }

  function Lookup(m: map<nat, Option<nat>>, key: nat): (r: Option<Option<nat>>) {
    if key in m then Some(m[key]) else None
  }

  /******* Keeping the entries *******/

  lemma OtherField(p: Program, f: Facts, diff: Differ, snode: nat, k: nat, entry: Option<Option<nat>>)
    requires k < |p| && FieldEntry(p, f, diff, snode, k, entry) && !AccessesField(p, snode, k)
    ensures FieldEntry(p, f, diff, snode, k + 1, entry)
  {
    if entry.Some? {
      var a :| 0 <= a < k && FirstField(p, snode, a)
        && entry.value == if OnlyThrough(p, f, diff, snode, k, a) then Some(a) else None;
      assert OnlyThrough(p, f, diff, snode, k + 1, a) <==> OnlyThrough(p, f, diff, snode, k, a);
    }
  }

  lemma NewField(p: Program, f: Facts, diff: Differ, k: nat)
    requires WellTargeted(p) && k < |p| && p[k].GlobalPtr? && FieldEntry(p, f, diff, p[k].snode, k, None)
    ensures FieldEntry(p, f, diff, p[k].snode, k + 1,
                       Some(if LoopUniqueIndices(f, p[k].indices) then Some(k) else None))
  {
    assert FirstField(p, p[k].snode, k);
    assert SameAddress(p, diff, k, k);
    assert OnlyThrough(p, f, diff, p[k].snode, k + 1, k) <==> LoopUniqueIndices(f, p[k].indices);
  }

  lemma AgainField(p: Program, f: Facts, diff: Differ, k: nat, e: Option<nat>)
    requires WellTargeted(p) && k < |p| && p[k].GlobalPtr? && FieldEntry(p, f, diff, p[k].snode, k, Some(e))
    ensures e.Some? ==> e.value < k && AccessesField(p, p[k].snode, e.value)
    ensures FieldEntry(p, f, diff, p[k].snode, k + 1,
                       Some(if e.Some? && SameAddress(p, diff, e.value, k) then e else None))
  {
    var snode := p[k].snode;
    var a :| 0 <= a < k && FirstField(p, snode, a)
      && e == if OnlyThrough(p, f, diff, snode, k, a) then Some(a) else None;
    assert OnlyThrough(p, f, diff, snode, k + 1, a)
           <==> OnlyThrough(p, f, diff, snode, k, a) && SameAddress(p, diff, a, k);
  }

  lemma OtherArray(p: Program, f: Facts, same: Same, arg: nat, k: nat, entry: Option<Option<nat>>)
    requires k < |p| && ArrayEntry(p, f, same, arg, k, entry) && !AccessesArray(p, arg, k)
    ensures ArrayEntry(p, f, same, arg, k + 1, entry)
  {
    if entry.Some? {
      var a :| 0 <= a < k && FirstArray(p, arg, a)
        && entry.value == if OnlyLike(p, f, same, arg, k, a) then Some(a) else None;
      assert OnlyLike(p, f, same, arg, k + 1, a) <==> OnlyLike(p, f, same, arg, k, a);
    }
  }

  lemma NewArray(p: Program, f: Facts, same: Same, k: nat)
    requires k < |p| && p[k].ExternalPtr? && ArrayEntry(p, f, same, p[k].arg, k, None)
    ensures ArrayEntry(p, f, same, p[k].arg, k + 1,
                       Some(if LoopUniqueIndices(f, p[k].extIndices) then Some(k) else None))
  {
    assert FirstArray(p, p[k].arg, k);
    assert AccessesArray(p, p[k].arg, k);
    assert OnlyLike(p, f, same, p[k].arg, k + 1, k) <==> LoopUniqueIndices(f, p[k].extIndices);
  }

  lemma AgainArray(p: Program, f: Facts, same: Same, k: nat, e: Option<nat>)
    requires k < |p| && p[k].ExternalPtr? && ArrayEntry(p, f, same, p[k].arg, k, Some(e))
    ensures e.Some? ==> e.value < k && AccessesArray(p, p[k].arg, e.value)
    ensures ArrayEntry(p, f, same, p[k].arg, k + 1,
                       Some(if e.Some? && LoopUniqueIndices(f, p[k].extIndices)
                            && Matches(p, f, same, e.value, k) then e else None))
  {
    var arg := p[k].arg;
    var a :| 0 <= a < k && FirstArray(p, arg, a) && e == if OnlyLike(p, f, same, arg, k, a) then Some(a) else None;
    assert AccessesArray(p, arg, k);
    assert OnlyLike(p, f, same, arg, k + 1, a) <==>
           OnlyLike(p, f, same, arg, k, a) && LoopUniqueIndices(f, p[k].extIndices) && Matches(p, f, same, a, k);
  }

  /******* The traversal *******/

  class UniquelyAccessedSearcher {
    const searcher: LoopUniqueSearcher
    var accessedPointer: map<nat, Option<nat>>
    var accessedArrPointer: map<nat, Option<nat>>

    constructor (searcher: LoopUniqueSearcher)
      ensures this.searcher == searcher && accessedPointer == map[] && accessedArrPointer == map[]
    {
      this.searcher, accessedPointer, accessedArrPointer := searcher, map[], map[];
    }

    /** The entries are right for the first `k` statements. */
    ghost predicate Right(p: Program, diff: Differ, same: Same, k: nat)
      reads this, searcher
    {
      && (forall s: nat :: FieldEntry(p, searcher.Collected(), diff, s, k, Lookup(accessedPointer, s)))
      && (forall a: nat :: ArrayEntry(p, searcher.Collected(), same, a, k, Lookup(accessedArrPointer, a)))
    }

    /** The visit of a field pointer. */
    method VisitGlobalPtr(p: Program, diff: Differ, same: Same, k: nat)
      requires WellFormed(p) && WellTargeted(p) && k < |p| && p[k].GlobalPtr? && Right(p, diff, same, k)
      modifies `accessedPointer
      ensures Right(p, diff, same, k + 1)
    {
      var snode := p[k].snode;
      ghost var f := searcher.Collected();
      ghost var was := accessedPointer;
      assert FieldEntry(p, f, diff, snode, k, Lookup(was, snode));
      if snode !in accessedPointer {
        NewField(p, f, diff, k);
        var unique := searcher.IsPtrIndicesLoopUnique(p[k].indices);
        accessedPointer := accessedPointer[snode := if unique then Some(k) else None];
      } else {
        AgainField(p, f, diff, k, accessedPointer[snode]);
        var recorded := accessedPointer[snode];
        if !AliasAnalysis(p, diff, recorded, Some(k)).Same? {
          accessedPointer := accessedPointer[snode := None];
        }
      }
      forall s: nat
        ensures FieldEntry(p, f, diff, s, k + 1, Lookup(accessedPointer, s))
      {
        if s != snode {
          OtherField(p, f, diff, s, k, Lookup(was, s));
        }
      }
      forall a: nat
        ensures ArrayEntry(p, f, same, a, k + 1, Lookup(accessedArrPointer, a))
      {
        OtherArray(p, f, same, a, k, Lookup(accessedArrPointer, a));
      }
    }

    /** Compare the loop-unique indices of `k` with those of the recorded pointer. */
    method UniqueIndicesMatch(p: Program, same: Same, k: nat, other: nat) returns (r: bool)
      requires k < |p| && other < |p| && p[k].ExternalPtr? && p[other].ExternalPtr?
      requires |p[k].extIndices| == |p[other].extIndices|
      ensures r <==> Matches(p, searcher.Collected(), same, other, k)
    {
      for axis := 0 to |p[k].extIndices|
        invariant forall i | 0 <= i < axis && p[k].extIndices[i] in searcher.loopUnique ::
                  same(p[k].extIndices[i], p[other].extIndices[i])
      {
        if p[k].extIndices[axis] in searcher.loopUnique && !same(p[k].extIndices[axis], p[other].extIndices[axis]) {
          return false;
        }
      }
      return true;
    }

    /** The visit of an array pointer. */
    method VisitExternalPtr(p: Program, diff: Differ, same: Same, k: nat)
      requires WellFormed(p) && WellTargeted(p) && k < |p| && p[k].ExternalPtr? && Right(p, diff, same, k)
      modifies `accessedArrPointer
      ensures Right(p, diff, same, k + 1)
    {
      var arg := p[k].arg;
      ghost var f := searcher.Collected();
      ghost var was := accessedArrPointer;
      assert ArrayEntry(p, f, same, arg, k, Lookup(was, arg));
      if arg in was {
        AgainArray(p, f, same, k, was[arg]);
      } else {
        NewArray(p, f, same, k);
      }
      var unique := searcher.IsPtrIndicesLoopUnique(p[k].extIndices);
      if !unique {
        accessedArrPointer := accessedArrPointer[arg := None];
      } else if arg !in accessedArrPointer {
        accessedArrPointer := accessedArrPointer[arg := Some(k)];
      } else if accessedArrPointer[arg].Some? {
        var other := accessedArrPointer[arg].value;
        assert WellTargetedAt(p[k], p[other]);
        var matching := UniqueIndicesMatch(p, same, k, other);
        if !matching {
          accessedArrPointer := accessedArrPointer[arg := None];
        }
      }
      forall a: nat
        ensures ArrayEntry(p, f, same, a, k + 1, Lookup(accessedArrPointer, a))
      {
        if a != arg {
          OtherArray(p, f, same, a, k, Lookup(was, a));
        }
      }
      forall s: nat
        ensures FieldEntry(p, f, diff, s, k + 1, Lookup(accessedPointer, s))
      {
        OtherField(p, f, diff, s, k, Lookup(accessedPointer, s));
      }
    }

    /** Other statements change no entry. */
    lemma OtherKeepsRight(p: Program, diff: Differ, same: Same, k: nat)
      requires k < |p| && !IsPtr(p[k]) && Right(p, diff, same, k)
      ensures Right(p, diff, same, k + 1)
    {
      var f := searcher.Collected();
      forall s: nat
        ensures FieldEntry(p, f, diff, s, k + 1, Lookup(accessedPointer, s))
      {
        OtherField(p, f, diff, s, k, Lookup(accessedPointer, s));
      }
      forall a: nat
        ensures ArrayEntry(p, f, same, a, k + 1, Lookup(accessedArrPointer, a))
      {
        OtherArray(p, f, same, a, k, Lookup(accessedArrPointer, a));
      }
    }

    method VisitAll(p: Program, diff: Differ, same: Same)
      requires WellFormed(p) && WellTargeted(p) && accessedPointer == map[] && accessedArrPointer == map[]
      modifies `accessedPointer, `accessedArrPointer
      ensures Right(p, diff, same, |p|)
    {
      for k := 0 to |p|
        invariant Right(p, diff, same, k)
      {
        if p[k].GlobalPtr? {
          VisitGlobalPtr(p, diff, same, k);
        } else if p[k].ExternalPtr? {
          VisitExternalPtr(p, diff, same, k);
        } else {
          OtherKeepsRight(p, diff, same, k);
        }
      }
    }
  }

  /******* What a recorded pointer promises *******/

  /** Accesses `s` at moment `x` and `t` at moment `y` are at the same index tuple. */
  ghost predicate Collide(p: Program, s: nat, x: Moment, t: nat, y: Moment)
    requires WellFormed(p) && s < |p| && t < |p| && IsPtr(p[s]) && IsPtr(p[t]) && |x.vals| == |y.vals| == |p|
  {
    assert OperandsBefore(p[s], s) && OperandsBefore(p[t], t);
    Select(x.vals, Indices(p[s])) == Select(y.vals, Indices(p[t]))
  }

  /** No cell of the field is touched by two iterations. */
  ghost predicate FieldUnique(m: Machine, p: Program, n: nat, snode: nat)
    requires WellFormed(p)
  {
    forall s, t, x, y | Pair(m, p, n, x, y) && AccessesField(p, snode, s) && AccessesField(p, snode, t)
      && Collide(p, s, x, t, y) ::
      x.it == y.it
  }

  lemma SelectAt(vals: seq<Word>, ws: seq<Word>, xs: seq<nat>, ys: seq<nat>, i: nat)
    requires (forall i | 0 <= i < |xs| :: xs[i] < |vals|) && (forall i | 0 <= i < |ys| :: ys[i] < |ws|)
    requires i < |xs| == |ys| && Select(vals, xs) == Select(ws, ys)
    ensures vals[xs[i]] == ws[ys[i]]
  {
    assert Select(vals, xs)[i] == vals[xs[i]] && Select(ws, ys)[i] == ws[ys[i]];
  }

  lemma SameTuple(p: Program, a: nat, x: Moment, y: Moment, tracked: set<nat>)
    requires WellFormed(p) && a < |p| && IsPtr(p[a]) && |x.vals| == |y.vals| == |p| && Collide(p, a, x, a, y)
    ensures AgreeOn(x, y, Indices(p[a]), tracked)
  {
    var ix := Indices(p[a]);
    assert OperandsBefore(p[a], a);
    forall i | 0 <= i < |ix| && ix[i] in tracked
      ensures ix[i] < |x.vals| && x.vals[ix[i]] == y.vals[ix[i]]
    {
      SelectAt(x.vals, y.vals, ix, ix, i);
    }
  }

  /** A field with a recorded pointer is accessed uniquely. */
  lemma RecordedField(m: Machine, p: Program, f: Facts, diff: Differ, snode: nat, a: nat)
    requires WellFormed(p) && WellTargeted(p) && DiffSound(m, p, diff) && Sound(m, p, f)
    requires FieldEntry(p, f, diff, snode, |p|, Some(Some(a)))
    ensures FieldUnique(m, p, f.num, snode)
  {
    LoopUniqueIndicesSound(m, p, f, p[a].indices);
    forall s, t, x, y | Pair(m, p, f.num, x, y) && AccessesField(p, snode, s) && AccessesField(p, snode, t)
      && Collide(p, s, x, t, y)
      ensures x.it == y.it
    {
      assert SameAddress(p, diff, a, s) && SameAddress(p, diff, a, t);
      AliasSound(m, p, diff, a, s, x);
      AliasSound(m, p, diff, a, t, y);
      assert Collide(p, a, x, a, y);
      SameTuple(p, a, x, y, f.unique.Keys);
    }
  }

  /** An entry is determined by the statements. */
  lemma EntriesDetermined(p: Program, f: Facts, diff: Differ, same: Same, key: nat, e: Option<Option<nat>>,
                          g: Option<Option<nat>>)
    ensures FieldEntry(p, f, diff, key, |p|, e) && FieldEntry(p, f, diff, key, |p|, g) ==> e == g
    ensures ArrayEntry(p, f, same, key, |p|, e) && ArrayEntry(p, f, same, key, |p|, g) ==> e == g
  {
  }

  /******* Arrays *******/

  /** The indices of `s` on the axes where both accesses have a loop-unique index. */
  ghost function CommonIndices(p: Program, f: Facts, s: nat, t: nat): seq<nat>
    requires s < |p| && t < |p| && p[s].ExternalPtr? && p[t].ExternalPtr? && |p[s].extIndices| == |p[t].extIndices|
  {
    CommonOf(f, p[s].extIndices, p[t].extIndices)
  }

  ghost function CommonOf(f: Facts, xs: seq<nat>, ys: seq<nat>): (r: seq<nat>)
    requires |xs| == |ys|
    ensures forall a | a in r :: exists i :: 0 <= i < |xs| && a == xs[i] && xs[i] in f.unique && ys[i] in f.unique
    ensures forall i | 0 <= i < |xs| && xs[i] in f.unique && ys[i] in f.unique :: xs[i] in r
  {
    if xs == [] then []
    else (if xs[0] in f.unique && ys[0] in f.unique then [xs[0]] else []) + CommonOf(f, xs[1..], ys[1..])
  }

  /** Two accesses, at two moments of different iterations, are never at the same index tuple. */
  ghost predicate Apart(m: Machine, p: Program, n: nat, s: nat, t: nat)
    requires WellFormed(p) && s < |p| && t < |p| && IsPtr(p[s]) && IsPtr(p[t])
  {
    forall x, y | Pair(m, p, n, x, y) && Collide(p, s, x, t, y) :: x.it == y.it
  }

  /** What the entry says about one access. */
  ghost predicate Accepted(p: Program, f: Facts, same: Same, a: nat, s: nat) {
    s < |p| && p[s].ExternalPtr? && LoopUniqueIndices(f, p[s].extIndices) && (s == a || Matches(p, f, same, a, s))
  }

  lemma RecordedAccepts(p: Program, f: Facts, same: Same, arg: nat, a: nat, s: nat)
    requires ArrayEntry(p, f, same, arg, |p|, Some(Some(a))) && AccessesArray(p, arg, s)
    ensures AccessesArray(p, arg, a) && Accepted(p, f, same, a, a) && Accepted(p, f, same, a, s)
  {
  }

  /** Where `s` and `t` are both loop-unique, they have the values of the recorded pointer. */
  lemma CommonValue(m: Machine, p: Program, f: Facts, same: Same, a: nat, s: nat, x: Moment, i: nat)
    requires WellFormed(p) && SameSound(m, p, same) && Computed(m, p, x) && a < |p| && p[a].ExternalPtr?
    requires Accepted(p, f, same, a, s) && |p[s].extIndices| == |p[a].extIndices| && i < |p[s].extIndices|
    requires p[s].extIndices[i] in f.unique
    ensures p[s].extIndices[i] < |p| && p[a].extIndices[i] < |p|
    ensures x.vals[p[s].extIndices[i]] == x.vals[p[a].extIndices[i]]
  {
    assert OperandsBefore(p[s], s) && OperandsBefore(p[a], a);
  }

  /** Two accesses are apart when the axes that are loop-unique in both suffice. */
  lemma CommonAxesApart(m: Machine, p: Program, f: Facts, same: Same, arg: nat, a: nat, s: nat, t: nat)
    requires WellFormed(p) && WellTargeted(p) && SameSound(m, p, same) && Sound(m, p, f)
    requires ArrayEntry(p, f, same, arg, |p|, Some(Some(a))) && AccessesArray(p, arg, s) && AccessesArray(p, arg, t)
    requires WellTargetedAt(p[s], p[t]) && LoopUniqueIndices(f, CommonIndices(p, f, s, t))
    ensures Apart(m, p, f.num, s, t)
  {
    RecordedAccepts(p, f, same, arg, a, s);
    RecordedAccepts(p, f, same, arg, a, t);
    var common := CommonIndices(p, f, s, t);
    LoopUniqueIndicesSound(m, p, f, common);
    forall x, y | Pair(m, p, f.num, x, y) && Collide(p, s, x, t, y)
      ensures x.it == y.it
    {
      forall k | k in common
        ensures k < |p| && x.vals[k] == y.vals[k]
      {
        CommonAgrees(m, p, f, same, a, s, t, x, y, k);
      }
      assert AgreeOn(x, y, common, f.unique.Keys);
    }
  }

  lemma CommonAgrees(m: Machine, p: Program, f: Facts, same: Same, a: nat, s: nat, t: nat, x: Moment, y: Moment, k: nat)
    requires WellFormed(p) && WellTargeted(p) && SameSound(m, p, same) && Computed(m, p, x) && Computed(m, p, y)
    requires Accepted(p, f, same, a, s) && Accepted(p, f, same, a, t) && a < |p| && SameTarget(p[a], p[s])
             && SameTarget(p[s], p[t])
    requires WellTargetedAt(p[s], p[t]) && Collide(p, s, x, t, y) && k in CommonIndices(p, f, s, t)
    ensures k < |p| && x.vals[k] == y.vals[k]
  {
    assert WellTargetedAt(p[a], p[s]) && OperandsBefore(p[s], s) && OperandsBefore(p[t], t);
    var xs, ys := p[s].extIndices, p[t].extIndices;
    var i :| 0 <= i < |xs| && k == xs[i] && xs[i] in f.unique && ys[i] in f.unique;
    SelectAt(x.vals, y.vals, xs, ys, i);
    CommonValue(m, p, f, same, a, s, y, i);
    CommonValue(m, p, f, same, a, t, y, i);
  }

  /** If the loop-unique axes of `s` are among those of `t`, they are the common ones. */
  lemma IncludedAxes(p: Program, f: Facts, s: nat, t: nat)
    requires s < |p| && t < |p| && p[s].ExternalPtr? && p[t].ExternalPtr? && |p[s].extIndices| == |p[t].extIndices|
    requires forall i | 0 <= i < |p[s].extIndices| && p[s].extIndices[i] in f.unique :: p[t].extIndices[i] in f.unique
    ensures CoordinatesOf(f, CommonIndices(p, f, s, t)) == CoordinatesOf(f, p[s].extIndices)
  {
    var xs, common := p[s].extIndices, CommonIndices(p, f, s, t);
    forall c | c in CoordinatesOf(f, xs)
      ensures c in CoordinatesOf(f, common)
    {
      var i :| 0 <= i < |xs| && xs[i] in f.unique && f.unique[xs[i]] == c;
      assert xs[i] in common;
    }
    forall c | c in CoordinatesOf(f, common)
      ensures c in CoordinatesOf(f, xs)
    {
      var j :| 0 <= j < |common| && common[j] in f.unique && f.unique[common[j]] == c;
      assert common[j] in common;
    }
  }

  /** An access is apart from every access that is loop-unique on the same axes or more. */
  lemma IncludedAxesApart(m: Machine, p: Program, f: Facts, same: Same, arg: nat, a: nat, s: nat, t: nat)
    requires WellFormed(p) && WellTargeted(p) && SameSound(m, p, same) && Sound(m, p, f)
    requires ArrayEntry(p, f, same, arg, |p|, Some(Some(a))) && AccessesArray(p, arg, s) && AccessesArray(p, arg, t)
    requires WellTargetedAt(p[s], p[t])
    requires forall i | 0 <= i < |p[s].extIndices| && p[s].extIndices[i] in f.unique :: p[t].extIndices[i] in f.unique
    ensures Apart(m, p, f.num, s, t)
  {
    RecordedAccepts(p, f, same, arg, a, s);
    IncludedAxes(p, f, s, t);
    CommonAxesApart(m, p, f, same, arg, a, s, t);
  }

  /** No access is at the same index tuple as the recorded pointer in another iteration. */
  lemma RecordedApart(m: Machine, p: Program, f: Facts, same: Same, arg: nat, a: nat, s: nat)
    requires WellFormed(p) && WellTargeted(p) && SameSound(m, p, same) && Sound(m, p, f)
    requires ArrayEntry(p, f, same, arg, |p|, Some(Some(a))) && AccessesArray(p, arg, s)
    ensures AccessesArray(p, arg, a) && Apart(m, p, f.num, s, a)
  {
    RecordedAccepts(p, f, same, arg, a, s);
    assert OperandsBefore(p[s], s) && OperandsBefore(p[a], a) && WellTargetedAt(p[s], p[a]);
    var xs, ys := p[s].extIndices, p[a].extIndices;
    LoopUniqueIndicesSound(m, p, f, xs);
    forall x, y | Pair(m, p, f.num, x, y) && Collide(p, s, x, a, y)
      ensures x.it == y.it
    {
      forall i | 0 <= i < |xs| && xs[i] in f.unique
        ensures xs[i] < |p| && x.vals[xs[i]] == y.vals[xs[i]]
      {
        SelectAt(x.vals, y.vals, xs, ys, i);
        CommonValue(m, p, f, same, a, s, y, i);
      }
      assert AgreeOn(x, y, xs, f.unique.Keys);
    }
  }

  /******* When two accepted accesses do collide *******/

  /** A body of loop indices, constants, unknown values and accesses, for a loop with `n` coordinates. */
  ghost predicate Plain(p: Program, n: nat) {
    forall k | 0 <= k < |p| :: PlainAt(p[k], n)
  }

  ghost predicate PlainAt(st: Stmt, n: nat) {
    st.Other? || st.Const? || IsPtr(st) || (st.LoopIndex? && st.ofOffload && st.index < n)
  }

  /** The constants and unknown values among the indices of an access are on one axis each. */
  ghost predicate NoRepetition(p: Program, xs: seq<nat>) {
    forall i, j | 0 <= i < j < |xs| && xs[i] < |p| && xs[i] == xs[j] :: p[xs[i]].LoopIndex?
  }

  /** No constant of the one access is on another axis of the other. */
  ghost predicate NoSharedConstant(p: Program, xs: seq<nat>, ys: seq<nat>) {
    forall i, j | 0 <= i < |xs| && 0 <= j < |ys| && xs[i] == ys[j] && xs[i] < |p| && p[xs[i]].Const? :: i == j
  }

  /** A constant of `xs` is one where `ys` has the coordinate that differs, and otherwise zero. */
  ghost function ConstantFor(p: Program, xs: seq<nat>, ys: seq<nat>, c: nat, k: nat): Word {
    if exists i :: 0 <= i < |xs| && i < |ys| && xs[i] == k && IsCoordinate(p, ys[i], c) then 1 else 0
  }

  predicate IsCoordinate(p: Program, k: nat, c: nat) {
    k < |p| && p[k].LoopIndex? && p[k].index == c
  }

  /** The iteration with coordinate `c` equal to one and the others zero, all unknown values zero. */
  ghost function Later(p: Program, n: nat, c: nat, xs: seq<nat>, ys: seq<nat>): (y: Moment)
    requires c < n
    ensures |y.it| == n && |y.vals| == |p|
    ensures forall k | 0 <= k < |p| :: y.vals[k] == LaterAt(p, c, xs, ys, k)
  {
    Moment(seq(n, i requires 0 <= i < n => if i == c then 1 else 0),
           seq(|p|, k requires 0 <= k < |p| => LaterAt(p, c, xs, ys, k)))
  }

  ghost function LaterAt(p: Program, c: nat, xs: seq<nat>, ys: seq<nat>, k: nat): Word
    requires k < |p|
  {
    if p[k].Const? then ConstantFor(p, xs, ys, c, k) else if IsCoordinate(p, k, c) then 1 else 0
  }

  /** Iteration zero, with the unknown indices of `xs` chosen to equal the later ones at `ys`. */
  ghost function Earlier(p: Program, n: nat, c: nat, xs: seq<nat>, ys: seq<nat>, y: Moment): (x: Moment)
    requires |xs| == |ys| && |y.vals| == |p|
    ensures |x.it| == n && |x.vals| == |p|
    ensures forall i | 0 <= i < n :: x.it[i] == 0
    ensures forall k | 0 <= k < |p| :: x.vals[k] == EarlierAt(p, c, xs, ys, y, k)
  {
    Moment(seq(n, i requires 0 <= i < n => 0), seq(|p|, k requires 0 <= k < |p| => EarlierAt(p, c, xs, ys, y, k)))
  }

  ghost function EarlierAt(p: Program, c: nat, xs: seq<nat>, ys: seq<nat>, y: Moment, k: nat): Word
    requires |xs| == |ys| && k < |p|
  {
    if p[k].LoopIndex? then 0
    else if p[k].Const? then ConstantFor(p, xs, ys, c, k)
    else Chosen(xs, ys, y, k)
  }

  ghost function Chosen(xs: seq<nat>, ys: seq<nat>, y: Moment, k: nat): Word
    requires |xs| == |ys|
  {
    if xs == [] then 0
    else if xs[0] == k && ys[0] < |y.vals| then y.vals[ys[0]]
    else Chosen(xs[1..], ys[1..], y, k)
  }

  lemma {:induction false} ChosenAt(p: Program, xs: seq<nat>, ys: seq<nat>, y: Moment, i: nat)
    requires |xs| == |ys| && i < |xs| && xs[i] < |p| && ys[i] < |y.vals|
    requires NoRepetition(p, xs) && !p[xs[i]].LoopIndex?
    ensures Chosen(xs, ys, y, xs[i]) == y.vals[ys[i]]
  {
    if i > 0 {
      var k := xs[i];
      assert xs[1..][i - 1] == k && ys[1..][i - 1] == ys[i];
      assert NoRepetition(p, xs[1..]) by {
        forall j, l | 0 <= j < l < |xs[1..]| && xs[1..][j] < |p| && xs[1..][j] == xs[1..][l]
          ensures p[xs[1..][j]].LoopIndex?
        {
          var j1, l1 := j + 1, l + 1;
          assert xs[j1] == xs[1..][j] && xs[l1] == xs[1..][l];
        }
      }
      ChosenAt(p, xs[1..], ys[1..], y, i - 1);
    }
  }

  lemma PlainPair(m: Machine, p: Program, n: nat, c: nat, xs: seq<nat>, ys: seq<nat>)
    requires Plain(p, n) && c < n && |xs| == |ys|
    ensures Pair(m, p, n, Earlier(p, n, c, xs, ys, Later(p, n, c, xs, ys)), Later(p, n, c, xs, ys))
  {
    var y := Later(p, n, c, xs, ys);
    var x := Earlier(p, n, c, xs, ys, y);
    forall k | 0 <= k < |p|
      ensures RelatedAt(p[k], n, x, y, k) && ComputedAt(m, p[k], x.vals, k) && ComputedAt(m, p[k], y.vals, k)
    {
      assert PlainAt(p[k], n);
    }
  }

  /** Coordinate `c` is an index of `t` on no axis where both have a loop index. */
  ghost predicate Uncovered(p: Program, xs: seq<nat>, ys: seq<nat>, c: nat) {
    forall i | 0 <= i < |xs| && i < |ys| && xs[i] < |p| && ys[i] < |p| && p[xs[i]].LoopIndex? && p[ys[i]].LoopIndex? ::
      p[ys[i]].index != c
  }

  /** On every axis the earlier index of `xs` equals the later one of `ys`. */
  lemma SameIndex(p: Program, n: nat, c: nat, xs: seq<nat>, ys: seq<nat>, i: nat)
    requires c < n && |xs| == |ys| && i < |xs| && xs[i] < |p| && ys[i] < |p|
    requires NoRepetition(p, xs) && NoSharedConstant(p, xs, ys) && Uncovered(p, xs, ys, c)
    ensures EarlierAt(p, c, xs, ys, Later(p, n, c, xs, ys), xs[i]) == LaterAt(p, c, xs, ys, ys[i])
  {
    if p[ys[i]].Const? {
      SharedOnAxis(p, c, xs, ys, i);
    }
    if p[xs[i]].Const? {
      OwnConstant(p, c, xs, ys, i);
    } else if !p[xs[i]].LoopIndex? {
      ChosenAt(p, xs, ys, Later(p, n, c, xs, ys), i);
    }
  }

  lemma OwnConstant(p: Program, c: nat, xs: seq<nat>, ys: seq<nat>, i: nat)
    requires |xs| == |ys| && i < |xs| && xs[i] < |p| && p[xs[i]].Const? && NoRepetition(p, xs)
    ensures ConstantFor(p, xs, ys, c, xs[i]) == if IsCoordinate(p, ys[i], c) then 1 else 0
  {
  }

  lemma SharedOnAxis(p: Program, c: nat, xs: seq<nat>, ys: seq<nat>, i: nat)
    requires |xs| == |ys| && i < |xs| && ys[i] < |p| && p[ys[i]].Const? && NoSharedConstant(p, xs, ys)
    ensures ConstantFor(p, xs, ys, c, ys[i]) == 0
  {
  }

  lemma UncoveredCollide(m: Machine, p: Program, n: nat, c: nat, s: nat, t: nat)
    requires WellFormed(p) && Plain(p, n) && c < n && s < |p| && t < |p| && p[s].ExternalPtr? && p[t].ExternalPtr?
    requires |p[s].extIndices| == |p[t].extIndices| && NoRepetition(p, p[s].extIndices)
    requires NoSharedConstant(p, p[s].extIndices, p[t].extIndices)
    requires Uncovered(p, p[s].extIndices, p[t].extIndices, c)
    ensures !Apart(m, p, n, s, t)
  {
    var xs, ys := p[s].extIndices, p[t].extIndices;
    var y := Later(p, n, c, xs, ys);
    var x := Earlier(p, n, c, xs, ys, y);
    PlainPair(m, p, n, c, xs, ys);
    assert OperandsBefore(p[s], s) && OperandsBefore(p[t], t);
    forall i | 0 <= i < |xs|
      ensures x.vals[xs[i]] == y.vals[ys[i]]
    {
      SameIndex(p, n, c, xs, ys, i);
    }
    assert Select(x.vals, xs) == Select(y.vals, ys);
    assert x.it[c] != y.it[c];
  }

  lemma PlainFacts(p: Program, n: nat)
    requires WellFormed(p) && Plain(p, n)
    ensures FactsAfter(p, n, |p|).num == n
    ensures forall k | 0 <= k < |p| :: k in FactsAfter(p, n, |p|).unique <==> p[k].LoopIndex?
    ensures forall k | k in FactsAfter(p, n, |p|).unique ::
            0 <= k < |p| && FactsAfter(p, n, |p|).unique[k] == p[k].index
  {
    forall k | 0 <= k < |p|
      ensures !Marks(p[k]) && Coordinate(p, k) == if p[k].LoopIndex? then Some(p[k].index) else None
    {
      assert PlainAt(p[k], n);
    }
    UniqueExact(p, n, |p|);
    NumExact(p, n, |p|);
    forall k | 0 <= k < |p|
      ensures Known(p, k, |p|) == Coordinate(p, k)
    {
      Unmarked(p, k, |p|);
    }
  }

  lemma {:induction false} AllBelow(n: nat) returns (s: set<int>)
    ensures |s| == n && forall c :: c in s <==> 0 <= c < n
  {
    if n == 0 {
      s := {};
    } else {
      s := AllBelow(n - 1);
      s := s + {n - 1};
    }
  }

  /** Where both have a loop index, it is the same one. */
  lemma SameCoordinate(m: Machine, p: Program, n: nat, f: Facts, same: Same, a: nat, s: nat, t: nat, i: nat)
    requires WellFormed(p) && SameSound(m, p, same) && Plain(p, n) && Accepted(p, f, same, a, s)
             && Accepted(p, f, same, a, t)
    requires a < |p| && p[a].ExternalPtr? && |p[s].extIndices| == |p[t].extIndices| == |p[a].extIndices|
             && i < |p[s].extIndices|
    requires p[s].extIndices[i] < |p| && p[s].extIndices[i] in f.unique && p[p[s].extIndices[i]].LoopIndex?
    requires p[t].extIndices[i] < |p| && p[t].extIndices[i] in f.unique && p[p[t].extIndices[i]].LoopIndex?
    ensures p[p[s].extIndices[i]].index == p[p[t].extIndices[i]].index
  {
    var k := p[t].extIndices[i];
    assert PlainAt(p[k], n);
    var y := Later(p, n, p[k].index, [], []);
    PlainPair(m, p, n, p[k].index, [], []);
    CommonValue(m, p, f, same, a, s, y, i);
    CommonValue(m, p, f, same, a, t, y, i);
  }

  /** In a plain body, two accesses of an accepted array are apart exactly when the axes on which both
      have a loop index hold all coordinates of the loop. */
  lemma ApartExactly(m: Machine, p: Program, n: nat, same: Same, arg: nat, a: nat, s: nat, t: nat)
    requires WellFormed(p) && WellTargeted(p) && SameSound(m, p, same) && Plain(p, n)
    requires ArrayEntry(p, FactsAfter(p, n, |p|), same, arg, |p|, Some(Some(a))) && AccessesArray(p, arg, s)
             && AccessesArray(p, arg, t)
    requires |p[s].extIndices| == |p[t].extIndices| && NoRepetition(p, p[s].extIndices)
    requires NoSharedConstant(p, p[s].extIndices, p[t].extIndices)
    ensures Apart(m, p, n, s, t)
            <==> LoopUniqueIndices(FactsAfter(p, n, |p|), CommonIndices(p, FactsAfter(p, n, |p|), s, t))
  {
    var f := FactsAfter(p, n, |p|);
    FactsSound(m, p, n, |p|);
    PlainFacts(p, n);
    if LoopUniqueIndices(f, CommonIndices(p, f, s, t)) {
      assert WellTargetedAt(p[s], p[t]);
      CommonAxesApart(m, p, f, same, arg, a, s, t);
    } else {
      var c := MissingCoordinate(p, n, f, CommonIndices(p, f, s, t));
      RecordedAccepts(p, f, same, arg, a, s);
      RecordedAccepts(p, f, same, arg, a, t);
      assert WellTargetedAt(p[s], p[a]);
      forall i | 0 <= i < |p[s].extIndices| && p[s].extIndices[i] < |p| && p[t].extIndices[i] < |p|
        && p[p[s].extIndices[i]].LoopIndex? && p[p[t].extIndices[i]].LoopIndex?
        ensures p[p[t].extIndices[i]].index != c
      {
        SameCoordinate(m, p, n, f, same, a, s, t, i);
        assert p[s].extIndices[i] in CommonIndices(p, f, s, t);
      }
      UncoveredCollide(m, p, n, c, s, t);
    }
  }

  lemma MissingMember(all: set<int>, cs: set<int>) returns (c: int)
    requires cs <= all && cs != all
    ensures c in all && c !in cs
  {
    var rest := all - cs;
    assert cs + rest == all;
    assert rest == {} ==> cs + rest == cs;
    assert (forall d: int :: d !in rest) ==> rest == {};
    c :| c in rest;
  }

  lemma MissingCoordinate(p: Program, n: nat, f: Facts, common: seq<nat>) returns (c: nat)
    requires Plain(p, n) && f.num == n && !LoopUniqueIndices(f, common)
    requires forall k | k in f.unique :: 0 <= k < |p| && p[k].LoopIndex? && f.unique[k] == p[k].index
    ensures c < n && forall k | k in common && k in f.unique :: f.unique[k] != c
  {
    var all := AllBelow(n);
    var cs := CoordinatesOf(f, common);
    forall d | d in cs
      ensures d in all
    {
      var j :| 0 <= j < |common| && common[j] in f.unique && f.unique[common[j]] == d;
      assert PlainAt(p[common[j]], n);
    }
    assert cs <= all && cs != all;
    c := MissingMember(all, cs);
    forall k | k in common && k in f.unique
      ensures f.unique[k] != c
    {
      var j :| 0 <= j < |common| && common[j] == k;
      assert f.unique[common[j]] in cs;
    }
  }

  /******* Three accesses, each accepted, two of which collide *******/

  /** `a[i, i]`, `a[i, 3]`, `a[7, i]` in a loop over `i`. */
  function ThreeAccesses(): (p: Program)
    ensures WellFormed(p)
  {
    [LoopIndex(true, 0), Const, Const, ExternalPtr(0, 0, false, [0, 0]), ExternalPtr(0, 0, false, [0, 1]),
     ExternalPtr(0, 0, false, [2, 0])]
  }

  lemma ThreeCoordinates(f: Facts)
    requires f == FactsAfter(ThreeAccesses(), 1, 6)
    ensures f.num == 1 && f.unique == map[0 := 0]
  {
    var p := ThreeAccesses();
    UniqueExact(p, 1, 6);
    NumExact(p, 1, 6);
    forall k | 0 <= k < 6
      ensures Known(p, k, 6) == if k == 0 then Some(0) else None
    {
      Unmarked(p, k, 6);
    }
  }

  lemma OneCoordinate(f: Facts, indices: seq<nat>, i: nat)
    requires f.num == 1 && f.unique == map[0 := 0] && i < |indices| && indices[i] == 0
    ensures LoopUniqueIndices(f, indices)
  {
    assert f.unique[indices[i]] in CoordinatesOf(f, indices);
    assert CoordinatesOf(f, indices) == {0};
  }

  /** Any comparison of indices that knows a statement to be the same as itself. */
  ghost predicate Reflexive(same: Same) {
    forall a: nat :: same(a, a)
  }

  lemma AcceptedAt(f: Facts, same: Same, j: nat, i: nat)
    requires Reflexive(same) && f.num == 1 && f.unique == map[0 := 0] && 3 <= j < 6 && i < 2
    requires ThreeAccesses()[j].extIndices[i] == 0 && ThreeAccesses()[j].extIndices[1 - i] != 0
    ensures Accepted(ThreeAccesses(), f, same, 3, j)
  {
    OneCoordinate(f, ThreeAccesses()[j].extIndices, i);
  }

  lemma ThreeAccepted(f: Facts, same: Same)
    requires Reflexive(same) && f.num == 1 && f.unique == map[0 := 0]
    ensures ArrayEntry(ThreeAccesses(), f, same, 0, 6, Some(Some(3)))
  {
    var p := ThreeAccesses();
    OneCoordinate(f, p[3].extIndices, 0);
    AcceptedAt(f, same, 4, 0);
    AcceptedAt(f, same, 5, 1);
    assert FirstArray(p, 0, 3);
    forall j | 0 <= j < 6 && AccessesArray(p, 0, j)
      ensures Accepted(p, f, same, 3, j)
    {
    }
    assert OnlyLike(p, f, same, 0, 6, 3);
  }

  /** The body is one of those for which the condition is exact. */
  lemma ThreeAccessesPlain()
    ensures WellTargeted(ThreeAccesses()) && Plain(ThreeAccesses(), 1) && NoRepetition(ThreeAccesses(), [0, 1])
    ensures NoSharedConstant(ThreeAccesses(), [0, 1], [2, 0])
  {
    var p := ThreeAccesses();
    forall a, b | 0 <= a < |p| && 0 <= b < |p|
      ensures WellTargetedAt(p[a], p[b])
    {
    }
  }

  /** The array is accepted, but iterations 7 and 3 both access `a[7, 3]`. */
  lemma ThreeAccessesCollide(m: Machine, same: Same)
    requires Reflexive(same)
    ensures ArrayEntry(ThreeAccesses(), FactsAfter(ThreeAccesses(), 1, 6), same, 0, 6, Some(Some(3)))
    ensures !Apart(m, ThreeAccesses(), 1, 4, 5)
  {
    var p := ThreeAccesses();
    ThreeCoordinates(FactsAfter(p, 1, 6));
    ThreeAccepted(FactsAfter(p, 1, 6), same);
    IterationsCollide(m);
  }

  lemma IterationsCollide(m: Machine)
    ensures !Apart(m, ThreeAccesses(), 1, 4, 5)
  {
    var p := ThreeAccesses();
    var x := Moment([7], [7, 3, 7, 0, 0, 0]);
    var y := Moment([3], [3, 3, 7, 0, 0, 0]);
    forall k | 0 <= k < |p|
      ensures RelatedAt(p[k], 1, x, y, k) && ComputedAt(m, p[k], x.vals, k) && ComputedAt(m, p[k], y.vals, k)
    {
    }
    assert Select(x.vals, [0, 1]) == [7, 3] && Select(y.vals, [2, 0]) == [7, 3];
    assert Collide(p, 4, x, 5, y);
    assert x.it[0] != y.it[0];
  }

  /******* Both traversals *******/

  datatype Task = RangeFor | StructFor(numActiveIndices: nat) | Serial

  function NumCoordinates(task: Task): nat {
    match task
    case RangeFor => 1
    case StructFor(n) => n
    case Serial => 0
  }

  ghost predicate AllApartFrom(m: Machine, p: Program, n: nat, arg: nat, a: nat)
    requires WellFormed(p)
  {
    AccessesArray(p, arg, a) && forall s | AccessesArray(p, arg, s) :: Apart(m, p, n, s, a)
  }

  /** What is recorded for a loop that has `num` coordinates by its kind. An entry is absent when nothing accesses
      the field or array; a recorded field is accessed uniquely, and no access to a recorded array collides with
      the recorded one. */
  ghost predicate Recorded(p: Program, num: nat, diff: Differ, same: Same, m: Machine, fields: map<nat, Option<nat>>,
                           arrays: map<nat, Option<nat>>)
    requires WellFormed(p)
  {
    && (forall s: nat :: FieldEntry(p, FactsAfter(p, num, |p|), diff, s, |p|, Lookup(fields, s)))
    && (forall a: nat :: ArrayEntry(p, FactsAfter(p, num, |p|), same, a, |p|, Lookup(arrays, a)))
    && (forall n: nat | LoopSize(p, num, |p|, n) :: RecordedUnique(p, n, diff, same, m, fields, arrays))
  }

  ghost predicate RecordedUnique(p: Program, n: nat, diff: Differ, same: Same, m: Machine,
                                 fields: map<nat, Option<nat>>, arrays: map<nat, Option<nat>>)
    requires WellFormed(p)
  {
    && (DiffSound(m, p, diff) ==> forall s: nat | s in fields && fields[s].Some? :: FieldUnique(m, p, n, s))
    && (SameSound(m, p, same) ==>
          forall a: nat | a in arrays && arrays[a].Some? :: AllApartFrom(m, p, n, a, arrays[a].value))
  }

  /** A body without marks has as many coordinates as its kind of loop. */
  lemma UnmarkedSize(p: Program, num: nat)
    requires WellFormed(p) && forall j | 0 <= j < |p| :: !Marks(p[j])
    ensures LoopSize(p, num, |p|, num)
  {
  }

  /** `run`: a range-for has one coordinate, a struct-for as many as its field has active indices, and serial code
      none, and marks may add some. */
  method GatherUniquelyAccessedPointers(p: Program, task: Task, diff: Differ, same: Same, ghost m: Machine)
    returns (fields: map<nat, Option<nat>>, arrays: map<nat, Option<nat>>)
    requires WellFormed(p) && WellTargeted(p)
    ensures task.RangeFor? ==> Recorded(p, 1, diff, same, m, fields, arrays)
    ensures task.StructFor? ==> Recorded(p, task.numActiveIndices, diff, same, m, fields, arrays)
    ensures task.Serial? ==> Recorded(p, 0, diff, same, m, fields, arrays)
    ensures task.StructFor? && (forall j | 0 <= j < |p| :: !Marks(p[j])) ==>
              RecordedUnique(p, task.numActiveIndices, diff, same, m, fields, arrays)
  {
    var num := NumCoordinates(task);
    var first := new LoopUniqueSearcher(num);
    first.VisitAll(p, num, m);
    var second := new UniquelyAccessedSearcher(first);
    second.VisitAll(p, diff, same);
    fields, arrays := second.accessedPointer, second.accessedArrPointer;
    ghost var f := first.Collected();
    EntriesRecorded(p, num, f, diff, same, m, fields, arrays);
    if forall j | 0 <= j < |p| :: !Marks(p[j]) {
      UnmarkedSize(p, num);
    }
  }

  lemma EntriesRecorded(p: Program, num: nat, f: Facts, diff: Differ, same: Same, m: Machine,
                        fields: map<nat, Option<nat>>, arrays: map<nat, Option<nat>>)
    requires WellFormed(p) && WellTargeted(p) && f == FactsAfter(p, num, |p|) && Sound(m, p, f)
    requires forall s: nat :: FieldEntry(p, f, diff, s, |p|, Lookup(fields, s))
    requires forall a: nat :: ArrayEntry(p, f, same, a, |p|, Lookup(arrays, a))
    ensures Recorded(p, num, diff, same, m, fields, arrays)
  {
    forall s: nat | DiffSound(m, p, diff) && s in fields && fields[s].Some?
      ensures FieldUnique(m, p, f.num, s)
    {
      assert FieldEntry(p, f, diff, s, |p|, Lookup(fields, s));
      RecordedField(m, p, f, diff, s, fields[s].value);
    }
    forall a: nat | SameSound(m, p, same) && a in arrays && arrays[a].Some?
      ensures AllApartFrom(m, p, f.num, a, arrays[a].value)
    {
      assert ArrayEntry(p, f, same, a, |p|, Lookup(arrays, a));
      forall s | AccessesArray(p, a, s)
        ensures Apart(m, p, f.num, s, arrays[a].value)
      {
        RecordedApart(m, p, f, same, a, arrays[a].value, s);
      }
    }
    NumExact(p, num, |p|);
    forall n: nat | LoopSize(p, num, |p|, n)
      ensures n == f.num
    {
      OneLoopSize(p, num, |p|, n, f.num);
    }
  }

  /** The search does record `a[i, i]` for the three accesses. */
  method GatherThreeAccesses(diff: Differ, ghost m: Machine) returns (arrays: map<nat, Option<nat>>)
    ensures 0 in arrays && arrays[0] == Some(3) && !Apart(m, ThreeAccesses(), 1, 4, 5)
  {
    var p := ThreeAccesses();
    ThreeAccessesPlain();
    var same := (a: nat, b: nat) => a == b;
    var fields;
    fields, arrays := GatherUniquelyAccessedPointers(p, RangeFor, diff, same, m);
    ThreeAccessesCollide(m, same);
    assert ArrayEntry(p, FactsAfter(p, 1, 6), same, 0, 6, Lookup(arrays, 0));
    EntriesDetermined(p, FactsAfter(p, 1, 6), diff, same, 0, Lookup(arrays, 0), Some(Some(3)));
  }
}

/**
 Values that identify coordinates of a parallel loop: the first traversal of the search for uniquely
 accessed pointers, and why an index tuple made of such values belongs to one iteration only.
 */
module LoopUnique {
  import opened Options
  import opened Words
  import Bits

  /** Statements in the order of the traversals; operands are positions of earlier statements. */
  datatype Stmt =
    | LoopIndex(ofOffload: bool, index: nat)
    | LoopUnique
    | Const
    | ExternalShape
    | Unary(uop: UnaryOp, operand: nat)
    | Binary(bop: BinaryOp, lhs: nat, rhs: nat)
    | Decoration(decorated: nat, loopUniqueAxis: Option<nat>)
    | GlobalPtr(snode: nat, indices: seq<nat>)
    | ExternalPtr(base: nat, arg: nat, isGrad: bool, extIndices: seq<nat>)
    | MatrixPtr(origin: nat, offset: nat)
    | Other

  datatype UnaryOp = Neg | OtherUnary(uid: nat)
  datatype BinaryOp = Add | Sub | BitXor | OtherBinary(bid: nat)

  type Program = seq<Stmt>

  ghost predicate WellFormed(p: Program) {
    forall k | 0 <= k < |p| :: OperandsBefore(p[k], k)
  }

  ghost predicate OperandsBefore(st: Stmt, k: nat) {
    match st
    case Unary(_, a) => a < k
    case Binary(_, a, b) => a < k && b < k
    case Decoration(a, _) => a < k
    case MatrixPtr(a, b) => a < k && b < k
    case GlobalPtr(_, ix) => forall i | 0 <= i < |ix| :: ix[i] < k
    case ExternalPtr(_, _, _, ix) => forall i | 0 <= i < |ix| :: ix[i] < k
    case _ => true
  }

  /******* 32-bit words *******/

  function XorWords(a: Word, b: Word): (r: Word) {
    assert Bits.Pow2(8) == 0x100 && Bits.Pow2(16) == 0x1_0000 && Bits.Pow2(24) == 0x100_0000
           && Bits.Pow2(32) == 0x1_0000_0000;
    Bits.XorBound(a, b, 32);
    Bits.Xor(a, b)
  }

  /******* Two runs of the loop body *******/

  /** What the other operators compute is not known, only that it is a function of the operands. */
  datatype Machine = Machine(unary: (nat, Word) -> Word, binary: (nat, Word, Word) -> Word)

  ghost function UnaryValue(m: Machine, op: UnaryOp, a: Word): Word {
    match op
    case Neg => SubWords(0, a)
    case OtherUnary(id) => m.unary(id, a)
  }

  ghost function BinaryValue(m: Machine, op: BinaryOp, a: Word, b: Word): Word {
    match op
    case Add => AddWords(a, b)
    case Sub => SubWords(a, b)
    case BitXor => XorWords(a, b)
    case OtherBinary(id) => m.binary(id, a, b)
  }

  /** The values of all statements at some moment of one iteration, which has coordinates `it`. Inner
      loops and memory make other statements arbitrary. */
  datatype Moment = Moment(it: seq<int>, vals: seq<Word>)

  /** Values that are computed from other values. */
  ghost predicate Computed(m: Machine, p: Program, x: Moment) {
    |x.vals| == |p| && forall k | 0 <= k < |p| :: ComputedAt(m, p[k], x.vals, k)
  }

  ghost predicate ComputedAt(m: Machine, st: Stmt, vals: seq<Word>, k: nat)
    requires k < |vals|
  {
    match st
    case Unary(op, a) => a < |vals| ==> vals[k] == UnaryValue(m, op, vals[a])
    case Binary(op, a, b) => a < |vals| && b < |vals| ==> vals[k] == BinaryValue(m, op, vals[a], vals[b])
    case _ => true
  }

  /** A value that identifies coordinate `c`, or the whole iteration when `c` is -1. */
  ghost predicate Identifies(x: Moment, y: Moment, k: nat, c: int) {
    k < |x.vals| && k < |y.vals| && x.vals[k] == y.vals[k] ==>
      if c == -1 then x.it == y.it else 0 <= c < |x.it| && c < |y.it| && x.it[c] == y.it[c]
  }

  /** What constants, shapes, loop indices and the loop-unique marks promise about two moments of the
      same loop, whose iterations have `n` coordinates. */
  ghost predicate Related(p: Program, n: nat, x: Moment, y: Moment) {
    && |x.it| == |y.it| == n && |x.vals| == |y.vals| == |p|
    && forall k | 0 <= k < |p| :: RelatedAt(p[k], n, x, y, k)
  }

  ghost predicate RelatedAt(st: Stmt, n: nat, x: Moment, y: Moment, k: nat)
    requires k < |x.vals| == |y.vals|
  {
    match st
    case LoopIndex(ofOffload, c) => ofOffload ==> c < n && Identifies(x, y, k, c)
    case LoopUnique => Identifies(x, y, k, -1)
    case Const => x.vals[k] == y.vals[k]
    case ExternalShape => x.vals[k] == y.vals[k]
    case Decoration(a, Some(c)) => c < n && Identifies(x, y, a, c)
    case _ => true
  }

  /** Two moments that the loop may go through. */
  ghost predicate Pair(m: Machine, p: Program, n: nat, x: Moment, y: Moment) {
    Related(p, n, x, y) && Computed(m, p, x) && Computed(m, p, y)
  }

  /** Statement `k` has the same value at all moments. */
  ghost predicate AlwaysEqual(m: Machine, p: Program, k: nat) {
    k < |p| && forall n: nat, x, y | Pair(m, p, n, x, y) :: x.vals[k] == y.vals[k]
  }

  /** The value of statement `k` identifies coordinate `c`. */
  ghost predicate AlwaysIdentifies(m: Machine, p: Program, k: nat, c: int) {
    k < |p| && forall n: nat, x, y | Pair(m, p, n, x, y) :: Identifies(x, y, k, c)
  }

  /******* Why the rules of the first traversal are sound *******/

  lemma BaseFacts(m: Machine, p: Program, k: nat)
    requires WellFormed(p) && k < |p|
    ensures p[k].Const? || p[k].ExternalShape? ==> AlwaysEqual(m, p, k)
    ensures p[k].LoopIndex? && p[k].ofOffload ==> AlwaysIdentifies(m, p, k, p[k].index)
    ensures p[k].LoopUnique? ==> AlwaysIdentifies(m, p, k, -1)
    ensures p[k].Decoration? && p[k].loopUniqueAxis.Some? ==>
            AlwaysIdentifies(m, p, p[k].decorated, p[k].loopUniqueAxis.value)
  {
    assert OperandsBefore(p[k], k);
    forall n: nat, x, y | Pair(m, p, n, x, y)
      ensures RelatedAt(p[k], n, x, y, k)
    {
    }
  }

  lemma UnaryInvariant(m: Machine, p: Program, k: nat)
    requires WellFormed(p) && k < |p| && p[k].Unary? && AlwaysEqual(m, p, p[k].operand)
    ensures AlwaysEqual(m, p, k)
  {
    forall n: nat, x, y | Pair(m, p, n, x, y)
      ensures x.vals[k] == y.vals[k]
    {
      assert ComputedAt(m, p[k], x.vals, k) && ComputedAt(m, p[k], y.vals, k);
    }
  }

  lemma UnaryInjective(m: Machine, p: Program, k: nat, c: int)
    requires WellFormed(p) && k < |p| && p[k].Unary? && p[k].uop.Neg? && AlwaysIdentifies(m, p, p[k].operand, c)
    ensures AlwaysIdentifies(m, p, k, c)
  {
    forall n: nat, x, y | Pair(m, p, n, x, y)
      ensures Identifies(x, y, k, c)
    {
      assert ComputedAt(m, p[k], x.vals, k) && ComputedAt(m, p[k], y.vals, k);
      NegInjective(x.vals[p[k].operand], y.vals[p[k].operand]);
      assert Identifies(x, y, p[k].operand, c);
    }
  }

  lemma NegInjective(a: Word, b: Word)
    ensures SubWords(0, a) == SubWords(0, b) ==> a == b
  {
  }

  lemma BinaryInvariant(m: Machine, p: Program, k: nat)
    requires WellFormed(p) && k < |p| && p[k].Binary? && AlwaysEqual(m, p, p[k].lhs) && AlwaysEqual(m, p, p[k].rhs)
    ensures AlwaysEqual(m, p, k)
  {
    forall n: nat, x, y | Pair(m, p, n, x, y)
      ensures x.vals[k] == y.vals[k]
    {
      assert ComputedAt(m, p[k], x.vals, k) && ComputedAt(m, p[k], y.vals, k);
    }
  }

  predicate Injective(op: BinaryOp) {
    op.Add? || op.Sub? || op.BitXor?
  }

  lemma OpInjective(m: Machine, op: BinaryOp, a: Word, b: Word, c: Word)
    requires Injective(op)
    requires BinaryValue(m, op, a, c) == BinaryValue(m, op, b, c)
             || BinaryValue(m, op, c, a) == BinaryValue(m, op, c, b)
    ensures a == b
  {
    if op.BitXor? {
      Bits.XorCommutes(a, c);
      Bits.XorCommutes(b, c);
      Bits.XorInjective(a, b, c);
    }
  }

  /** One operand is invariant, the other identifies a coordinate; `left` says which. */
  lemma BinaryInjective(m: Machine, p: Program, k: nat, c: int, left: bool)
    requires WellFormed(p) && k < |p| && p[k].Binary? && Injective(p[k].bop)
    requires AlwaysIdentifies(m, p, if left then p[k].lhs else p[k].rhs, c)
    requires AlwaysEqual(m, p, if left then p[k].rhs else p[k].lhs)
    ensures AlwaysIdentifies(m, p, k, c)
  {
    var a := if left then p[k].lhs else p[k].rhs;
    var b := if left then p[k].rhs else p[k].lhs;
    forall n: nat, x, y | Pair(m, p, n, x, y)
      ensures Identifies(x, y, k, c)
    {
      assert ComputedAt(m, p[k], x.vals, k) && ComputedAt(m, p[k], y.vals, k);
      assert x.vals[b] == y.vals[b] && Identifies(x, y, a, c);
      if x.vals[k] == y.vals[k] {
        OpInjective(m, p[k].bop, x.vals[a], y.vals[a], x.vals[b]);
      }
    }
  }

  /******* Addresses that identify the iteration *******/

  /** The two moments agree on the indices that are in `tracked`. */
  ghost predicate AgreeOn(x: Moment, y: Moment, indices: seq<nat>, tracked: set<nat>) {
    forall i | 0 <= i < |indices| && indices[i] in tracked ::
      indices[i] < |x.vals| && indices[i] < |y.vals| && x.vals[indices[i]] == y.vals[indices[i]]
  }

  /** Agreeing on the tracked indices means being in the same iteration. */
  ghost predicate UniqueAddress(m: Machine, p: Program, n: nat, indices: seq<nat>, tracked: set<nat>) {
    forall x, y | Pair(m, p, n, x, y) && AgreeOn(x, y, indices, tracked) :: x.it == y.it
  }

  lemma LoopUniqueAddress(m: Machine, p: Program, n: nat, indices: seq<nat>, uniq: map<nat, int>, i: nat)
    requires i < |indices| && indices[i] in uniq && uniq[indices[i]] == -1 && AlwaysIdentifies(m, p, indices[i], -1)
    ensures UniqueAddress(m, p, n, indices, uniq.Keys)
  {
    forall x, y | Pair(m, p, n, x, y) && AgreeOn(x, y, indices, uniq.Keys)
      ensures x.it == y.it
    {
      assert Identifies(x, y, indices[i], -1);
    }
  }

  /** Pigeonhole: `n` distinct numbers below `n` are all the numbers below `n`. */
  lemma {:induction false} FullSet(s: set<int>, n: nat)
    requires |s| == n && forall c | c in s :: 0 <= c < n
    ensures forall c | 0 <= c < n :: c in s
  {
    if n > 0 {
      if n - 1 in s {
        FullSet(s - {n - 1}, n - 1);
      } else {
        TooMany(s, n - 1);
      }
    }
  }

  lemma {:induction false} TooMany(s: set<int>, n: nat)
    requires forall c | c in s :: 0 <= c < n
    ensures |s| <= n
    decreases n
  {
    if n > 0 {
      TooMany(s - {n - 1}, n - 1);
    } else {
      assert forall c :: c !in s;
      assert s == {};
    }
  }

  lemma AllCoordinatesAddress(m: Machine, p: Program, n: nat, indices: seq<nat>, uniq: map<nat, int>, cs: set<int>)
    requires |cs| == n && forall a | a in uniq :: AlwaysIdentifies(m, p, a, uniq[a])
    requires -1 !in cs
    requires forall c | c in cs :: exists j :: 0 <= j < |indices| && indices[j] in uniq && uniq[indices[j]] == c
    ensures UniqueAddress(m, p, n, indices, uniq.Keys)
  {
    forall x, y | Pair(m, p, n, x, y) && AgreeOn(x, y, indices, uniq.Keys)
      ensures x.it == y.it
    {
      forall c | c in cs
        ensures 0 <= c < n && x.it[c] == y.it[c]
      {
        var j :| 0 <= j < |indices| && indices[j] in uniq && uniq[indices[j]] == c;
        assert Identifies(x, y, indices[j], c);
      }
      FullSet(cs, n);
    }
  }

  /******* The first traversal *******/

  /** What the traversal has collected: loop-invariant statements, the coordinate that a statement
      identifies (-1 for the whole iteration), and the number of coordinates. */
  datatype Facts = Facts(invariants: set<nat>, unique: map<nat, int>, num: nat)

  /** Every collected fact is true of every loop that the statements describe. */
  ghost predicate Sound(m: Machine, p: Program, f: Facts) {
    && (forall a | a in f.invariants :: AlwaysEqual(m, p, a))
    && (forall a | a in f.unique :: AlwaysIdentifies(m, p, a, f.unique[a]))
  }

  function AfterUnary(f: Facts, k: nat, op: UnaryOp, a: nat): Facts {
    Facts(if a in f.invariants then f.invariants + {k} else f.invariants,
          if a in f.unique && op.Neg? then f.unique[k := f.unique[a]] else f.unique,
          f.num)
  }

  /** An operand is looked up after the statement itself may have been inserted; operands are earlier
      statements, so that does not matter. */
  function AfterBinary(f: Facts, k: nat, op: BinaryOp, a: nat, b: nat): Facts {
    Facts(if a in f.invariants && b in f.invariants then f.invariants + {k} else f.invariants,
          if a in f.invariants && b in f.unique && Injective(op) then f.unique[k := f.unique[b]]
          else if a in f.unique && b in f.invariants && Injective(op) then f.unique[k := f.unique[a]]
          else f.unique,
          f.num)
  }

  function AfterMark(f: Facts, a: nat, c: nat): Facts {
    if a in f.unique then f
    else Facts(f.invariants, f.unique[a := c], if c + 1 > f.num then c + 1 else f.num)
  }

  /** The effect of visiting statement `k`. */
  function AfterVisit(p: Program, f: Facts, k: nat): Facts
    requires k < |p|
  {
    match p[k]
    case LoopIndex(true, c) => f.(unique := f.unique[k := c])
    case LoopUnique => f.(unique := f.unique[k := -1])
    case Const => f.(invariants := f.invariants + {k})
    case ExternalShape => f.(invariants := f.invariants + {k})
    case Unary(op, a) => AfterUnary(f, k, op, a)
    case Binary(op, a, b) => AfterBinary(f, k, op, a, b)
    case Decoration(a, Some(c)) => AfterMark(f, a, c)
    case _ => f
  }

  /** The facts after the first `k` statements of an offload whose iterations have `num` coordinates. */
  function FactsAfter(p: Program, num: nat, k: nat): Facts
    requires k <= |p|
  {
    if k == 0 then Facts({}, map[], num) else AfterVisit(p, FactsAfter(p, num, k - 1), k - 1)
  }

  lemma UnarySound(m: Machine, p: Program, f: Facts, k: nat)
    requires WellFormed(p) && Sound(m, p, f) && k < |p| && p[k].Unary?
    ensures Sound(m, p, AfterUnary(f, k, p[k].uop, p[k].operand))
  {
    var a := p[k].operand;
    if a in f.invariants {
      UnaryInvariant(m, p, k);
    }
    if a in f.unique && p[k].uop.Neg? {
      UnaryInjective(m, p, k, f.unique[a]);
    }
  }

  lemma BinarySound(m: Machine, p: Program, f: Facts, k: nat)
    requires WellFormed(p) && Sound(m, p, f) && k < |p| && p[k].Binary?
    ensures Sound(m, p, AfterBinary(f, k, p[k].bop, p[k].lhs, p[k].rhs))
  {
    var a, b := p[k].lhs, p[k].rhs;
    if a in f.invariants && b in f.invariants {
      BinaryInvariant(m, p, k);
    }
    if a in f.unique && b in f.invariants && Injective(p[k].bop) {
      BinaryInjective(m, p, k, f.unique[a], true);
    }
    if a in f.invariants && b in f.unique && Injective(p[k].bop) {
      BinaryInjective(m, p, k, f.unique[b], false);
    }
  }

  lemma VisitSound(m: Machine, p: Program, f: Facts, k: nat)
    requires WellFormed(p) && Sound(m, p, f) && k < |p|
    ensures Sound(m, p, AfterVisit(p, f, k))
  {
    BaseFacts(m, p, k);
    if p[k].Unary? {
      UnarySound(m, p, f, k);
    } else if p[k].Binary? {
      BinarySound(m, p, f, k);
    }
  }

  /** All that the traversal collects is true at all pairs of moments of every loop. */
  lemma {:induction false} FactsSound(m: Machine, p: Program, num: nat, k: nat)
    requires WellFormed(p) && k <= |p|
    ensures Sound(m, p, FactsAfter(p, num, k))
  {
    if k > 0 {
      var j := k - 1;
      var f := FactsAfter(p, num, j);
      FactsSound(m, p, num, j);
      VisitSound(m, p, f, j);
      assert FactsAfter(p, num, k) == AfterVisit(p, f, j);
    }
  }

  /******* The facts read off the expressions *******/

  /** Statement `k` is an expression over constants and array shapes. */
  predicate InvariantExpr(p: Program, k: nat)
    requires WellFormed(p) && k < |p|
  {
    assert OperandsBefore(p[k], k);
    match p[k]
    case Const => true
    case ExternalShape => true
    case Unary(_, a) => InvariantExpr(p, a)
    case Binary(_, a, b) => InvariantExpr(p, a) && InvariantExpr(p, b)
    case _ => false
  }

  predicate Marks(st: Stmt) {
    st.Decoration? && st.loopUniqueAxis.Some?
  }

  /** The axis of the first mark of statement `a` among the first `k` statements. */
  function FirstMark(p: Program, a: nat, k: nat): Option<int>
    requires k <= |p|
  {
    if k == 0 then None
    else if FirstMark(p, a, k - 1).Some? then FirstMark(p, a, k - 1)
    else if Marks(p[k - 1]) && p[k - 1].decorated == a then Some(p[k - 1].loopUniqueAxis.value)
    else None
  }

  /** The coordinate that statement `a` identifies by its form, from what is known where it stands; -1 is the
      whole iteration. */
  function Coordinate(p: Program, a: nat): Option<int>
    requires WellFormed(p) && a < |p|
    decreases a, 0
  {
    assert OperandsBefore(p[a], a);
    match p[a]
    case LoopIndex(true, c) => Some(c)
    case LoopUnique => Some(-1)
    case Unary(Neg, b) => Known(p, b, a)
    case Binary(op, b, c) =>
      if !(op.Add? || op.Sub? || op.BitXor?) then None
      else if InvariantExpr(p, b) && Known(p, c, a).Some? then Known(p, c, a)
      else if InvariantExpr(p, c) then Known(p, b, a)
      else None
    case _ => None
  }

  /** The coordinate of statement `a` that is known after the first `k` statements: by its form, or by its first
      mark. */
  function Known(p: Program, a: nat, k: nat): Option<int>
    requires WellFormed(p) && a < k <= |p|
    decreases a, 1
  {
    if Coordinate(p, a).Some? then Coordinate(p, a) else FirstMark(p, a, k)
  }

  lemma {:induction false} MarkedLater(p: Program, a: nat, k: nat)
    requires WellFormed(p) && k <= |p| && k <= a + 1
    ensures FirstMark(p, a, k) == None
    decreases k
  {
    if k > 0 {
      assert OperandsBefore(p[k - 1], k - 1);
      MarkedLater(p, a, k - 1);
    }
  }

  lemma {:induction false} Unmarked(p: Program, a: nat, k: nat)
    requires k <= |p| && forall j | 0 <= j < |p| :: !Marks(p[j])
    ensures FirstMark(p, a, k) == None
    decreases k
  {
    if k > 0 {
      Unmarked(p, a, k - 1);
    }
  }

  /** The invariant statements found are exactly the expressions over constants and shapes. */
  lemma {:induction false} InvariantsExact(p: Program, num: nat, k: nat)
    requires WellFormed(p) && k <= |p|
    ensures forall a :: a in FactsAfter(p, num, k).invariants <==> 0 <= a < k && InvariantExpr(p, a)
  {
    if k > 0 {
      InvariantsExact(p, num, k - 1);
      assert OperandsBefore(p[k - 1], k - 1);
    }
  }

  /** The unique statements found are exactly those with a known coordinate. */
  lemma {:induction false} UniqueExact(p: Program, num: nat, k: nat)
    requires WellFormed(p) && k <= |p|
    ensures forall a :: a in FactsAfter(p, num, k).unique <==> 0 <= a < k && Known(p, a, k).Some?
    ensures forall a | a in FactsAfter(p, num, k).unique :: Known(p, a, k) == Some(FactsAfter(p, num, k).unique[a])
  {
    if k > 0 {
      var j, f := k - 1, FactsAfter(p, num, k - 1);
      UniqueExact(p, num, j);
      InvariantsExact(p, num, j);
      assert OperandsBefore(p[j], j);
      MarkedLater(p, j, k);
      assert forall a: nat | a < j && !(Marks(p[j]) && p[j].decorated == a) :: Known(p, a, k) == Known(p, a, j);
    }
  }

  /** A mark that counts: of a statement whose coordinate is not known there. */
  ghost predicate NewMark(p: Program, d: nat)
    requires WellFormed(p)
  {
    d < |p| && Marks(p[d]) && p[d].decorated < d && Known(p, p[d].decorated, d).None?
  }

  /** The number of coordinates of a loop that has `num` by its kind: all axes that marks add count too. */
  ghost predicate LoopSize(p: Program, num: nat, k: nat, n: nat)
    requires WellFormed(p)
  {
    && n >= num && (forall d | 0 <= d < k && NewMark(p, d) :: p[d].loopUniqueAxis.value < n)
    && (n == num || exists d :: 0 <= d < k && NewMark(p, d) && n == p[d].loopUniqueAxis.value + 1)
  }

  /** The number of coordinates is that of the loop. */
  lemma {:induction false} NumExact(p: Program, num: nat, k: nat)
    requires WellFormed(p) && k <= |p|
    ensures LoopSize(p, num, k, FactsAfter(p, num, k).num)
  {
    if k > 0 {
      var j := k - 1;
      NumExact(p, num, j);
      UniqueExact(p, num, j);
      assert OperandsBefore(p[j], j);
      var was, now := FactsAfter(p, num, j).num, FactsAfter(p, num, k).num;
      if Marks(p[j]) {
        assert NewMark(p, j) <==> p[j].decorated !in FactsAfter(p, num, j).unique;
      } else {
        assert now == was && !NewMark(p, j);
      }
    }
  }

  lemma OneLoopSize(p: Program, num: nat, k: nat, m: nat, n: nat)
    requires WellFormed(p) && LoopSize(p, num, k, m) && LoopSize(p, num, k, n)
    ensures m == n
  {
  }

  /******* The searcher *******/

  /** The coordinates that the indices of a pointer identify. */
  ghost function CoordinatesOf(f: Facts, indices: seq<nat>): set<int> {
    set i | 0 <= i < |indices| && indices[i] in f.unique :: f.unique[indices[i]]
  }

  /** The index tuple holds a loop-unique value, or values for as many coordinates as the loop has. */
  ghost predicate LoopUniqueIndices(f: Facts, indices: seq<nat>) {
    -1 in CoordinatesOf(f, indices) || |CoordinatesOf(f, indices)| == f.num
  }

  /** If all coordinates are those of the loop, that is a value for the whole iteration, or one for each of its
      coordinates. */
  lemma LoopUniqueIndicesExactly(f: Facts, indices: seq<nat>)
    requires forall a | a in f.unique :: -1 <= f.unique[a] < f.num
    ensures LoopUniqueIndices(f, indices) <==>
            Indexed(f, indices, -1) || forall c | 0 <= c < f.num :: Indexed(f, indices, c)
  {
    var cs := CoordinatesOf(f, indices);
    assert forall c :: c in cs <==> Indexed(f, indices, c);
    if -1 !in cs {
      if |cs| == f.num {
        FullSet(cs, f.num);
      }
      if forall c | 0 <= c < f.num :: Indexed(f, indices, c) {
        AllOf(cs, f.num);
      }
    }
  }

  /** Some index has coordinate `c`. */
  ghost predicate Indexed(f: Facts, indices: seq<nat>, c: int) {
    exists i :: 0 <= i < |indices| && indices[i] in f.unique && f.unique[indices[i]] == c
  }

  lemma {:induction false} AllOf(s: set<int>, n: nat)
    requires forall c :: c in s <==> 0 <= c < n
    ensures |s| == n
    decreases n
  {
    if n > 0 {
      AllOf(s - {n - 1}, n - 1);
    } else {
      assert forall c :: c !in s;
    }
  }

  /** A pointer that passes the test is at the same address in one iteration only. */
  lemma LoopUniqueIndicesSound(m: Machine, p: Program, f: Facts, indices: seq<nat>)
    requires Sound(m, p, f) && LoopUniqueIndices(f, indices)
    ensures UniqueAddress(m, p, f.num, indices, f.unique.Keys)
  {
    if -1 in CoordinatesOf(f, indices) {
      var i :| 0 <= i < |indices| && indices[i] in f.unique && f.unique[indices[i]] == -1;
      LoopUniqueAddress(m, p, f.num, indices, f.unique, i);
    } else {
      AllCoordinatesAddress(m, p, f.num, indices, f.unique, CoordinatesOf(f, indices));
    }
  }

  class LoopUniqueSearcher {
    var loopInvariant: set<nat>
    var loopUnique: map<nat, int>
    var numDifferentLoopIndices: nat

    constructor (num: nat)
      ensures Collected() == Facts({}, map[], num)
    {
      loopInvariant, loopUnique, numDifferentLoopIndices := {}, map[], num;
    }

    function Collected(): Facts
      reads this
    {
      Facts(loopInvariant, loopUnique, numDifferentLoopIndices)
    }

    method VisitUnary(k: nat, op: UnaryOp, a: nat)
      modifies `loopInvariant, `loopUnique
      ensures Collected() == AfterUnary(old(Collected()), k, op, a)
    {
      if a in loopInvariant {
        loopInvariant := loopInvariant + {k};
      }
      if a in loopUnique && op.Neg? {
        loopUnique := loopUnique[k := loopUnique[a]];
      }
    }

    method VisitBinary(k: nat, op: BinaryOp, a: nat, b: nat)
      requires a < k && b < k
      modifies `loopInvariant, `loopUnique
      ensures Collected() == AfterBinary(old(Collected()), k, op, a, b)
    {
      if a in loopInvariant && b in loopInvariant {
        loopInvariant := loopInvariant + {k};
      }
      if a in loopUnique && b in loopInvariant && Injective(op) {
        loopUnique := loopUnique[k := loopUnique[a]];
      }
      if a in loopInvariant && b in loopUnique && Injective(op) {
        loopUnique := loopUnique[k := loopUnique[b]];
      }
    }

    method VisitMark(a: nat, c: nat)
      modifies `loopUnique, `numDifferentLoopIndices
      ensures Collected() == AfterMark(old(Collected()), a, c)
    {
      if a !in loopUnique {
        loopUnique := loopUnique[a := c];
        if c + 1 > numDifferentLoopIndices {
          numDifferentLoopIndices := c + 1;
        }
      }
    }

    /** Dispatch on one statement. */
    method Visit(p: Program, k: nat)
      requires WellFormed(p) && k < |p|
      modifies this
      ensures Collected() == AfterVisit(p, old(Collected()), k)
    {
      assert OperandsBefore(p[k], k);
      match p[k] {
        case LoopIndex(true, index) => loopUnique := loopUnique[k := index];
        case LoopUnique => loopUnique := loopUnique[k := -1];
        case Const => loopInvariant := loopInvariant + {k};
        case ExternalShape => loopInvariant := loopInvariant + {k};
        case Unary(op, a) => VisitUnary(k, op, a);
        case Binary(op, a, b) => VisitBinary(k, op, a, b);
        case Decoration(a, Some(c)) => VisitMark(a, c);
        case _ =>
      }
    }

    /** The traversal of the whole body: everything it collects is true of every loop. */
    method VisitAll(p: Program, num: nat, ghost m: Machine)
      requires WellFormed(p) && Collected() == Facts({}, map[], num)
      modifies this
      ensures Collected() == FactsAfter(p, num, |p|) && Sound(m, p, Collected())
    {
      for k := 0 to |p|
        invariant Collected() == FactsAfter(p, num, k)
      {
        Visit(p, k);
      }
      FactsSound(m, p, num, |p|);
    }

    /** `is_ptr_indices_loop_unique`. The sorted vector without repetitions is a set here. */
    method IsPtrIndicesLoopUnique(indices: seq<nat>) returns (r: bool)
      ensures r <==> LoopUniqueIndices(Collected(), indices)
    {
      ghost var all := CoordinatesOf(Collected(), indices);
      var loopIndices: set<int> := {};
      for i := 0 to |indices|
        invariant loopIndices == CoordinatesOf(Collected(), indices[..i])
        invariant -1 !in loopIndices
      {
        assert indices[..i + 1] == indices[..i] + [indices[i]];
        if indices[i] in loopUnique {
          var c := loopUnique[indices[i]];
          if c == -1 {
            assert c in all;
            return true;
          }
          OneMoreCoordinate(Collected(), indices, i);
          loopIndices := loopIndices + {c};
        } else {
          OneMoreCoordinate(Collected(), indices, i);
        }
      }
      assert indices[..|indices|] == indices;
      r := |loopIndices| == numDifferentLoopIndices;
    }
  }

  lemma OneMoreCoordinate(f: Facts, indices: seq<nat>, i: nat)
    requires i < |indices|
    ensures CoordinatesOf(f, indices[..i + 1]) ==
            CoordinatesOf(f, indices[..i]) + (if indices[i] in f.unique then {f.unique[indices[i]]} else {})
  {
    var n := i + 1;
    var now, before := indices[..n], indices[..i];
    forall c | c in CoordinatesOf(f, before)
      ensures c in CoordinatesOf(f, now)
    {
      var j :| 0 <= j < |before| && before[j] in f.unique && f.unique[before[j]] == c;
      assert now[j] == before[j];
    }
    assert now[i] == indices[i];
    forall c | c in CoordinatesOf(f, now)
      ensures c in CoordinatesOf(f, before) || (indices[i] in f.unique && f.unique[indices[i]] == c)
    {
      var j :| 0 <= j < |now| && now[j] in f.unique && f.unique[now[j]] == c;
      if j < i {
        assert before[j] == now[j];
      }
    }
  }
}

/** Whether two expressions definitely have the same value: `same_value` on expression graphs. */
module SameValue {
  import opened Options

  type Id = nat

  /** Three classes have fields that do not affect the value. */
  datatype Kind =
    | GlobalPtr(snode: nat, activate: bool)
    | LoopUnique(covers: nat)
    | RangeAssumption(low: int, high: int)
    | Other(typ: nat, fields: nat)

  datatype Instr = Instr(kind: Kind, operands: seq<Option<Id>>)

  type Ids = map<Id, Id>

  /** The statements, and which classes can be eliminated as common: their value is determined by their
      fields and operands. */
  datatype Graph = Graph(code: map<Id, Instr>, eliminable: nat -> bool, rank: Id -> nat)

  /** Operands are statements, without cycles; a range assumption has an input and a base. */
  ghost predicate WellFormed(g: Graph) {
    forall a | a in g.code :: WellFormedAt(g, a)
  }

  ghost predicate WellFormedAt(g: Graph, a: Id)
    requires a in g.code
  {
    && (forall i | 0 <= i < |g.code[a].operands| :: OperandBefore(g, a, g.code[a].operands[i]))
    && (g.code[a].kind.RangeAssumption? ==> |g.code[a].operands| == 2 && g.code[a].operands[0].Some?)
  }

  ghost predicate OperandBefore(g: Graph, a: Id, x: Option<Id>) {
    x.Some? ==> x.value in g.code && g.rank(x.value) < g.rank(a)
  }

  predicate SameType(k: Kind, l: Kind) {
    match k
    case GlobalPtr(_, _) => l.GlobalPtr?
    case LoopUnique(_) => l.LoopUnique?
    case RangeAssumption(_, _) => l.RangeAssumption?
    case Other(t, _) => l.Other? && l.typ == t
  }

  /** Identical statements of the class have the same value. */
  predicate Stable(g: Graph, k: Kind) {
    k.Other? ==> g.eliminable(k.typ)
  }

  /** The fields that matter for the value. */
  function Essence(k: Kind): Kind {
    match k
    case GlobalPtr(s, _) => GlobalPtr(s, false)
    case LoopUnique(_) => LoopUnique(0)
    case RangeAssumption(_, _) => RangeAssumption(0, 0)
    case Other(_, _) => k
  }

  /** Field by field: the number of activations, what a loop-unique value covers and the bounds of an
      assumption do not matter. */
  predicate SameFields(k: Kind, l: Kind) {
    && (k.GlobalPtr? ==> l.GlobalPtr? && k.snode == l.snode)
    && (k.Other? ==> l == k)
    && (k.LoopUnique? <==> l.LoopUnique?)
    && (k.RangeAssumption? <==> l.RangeAssumption?)
  }

  lemma EssenceSame(k: Kind, l: Kind)
    requires SameType(k, l)
    ensures Essence(k) == Essence(l) <==> SameFields(k, l)
  {
  }

  /******* The comparison *******/

  ghost function Mapped(g: Graph, deep: bool, ids: Ids, a: Id, b: Id): Option<Ids>
    requires WellFormed(g) && a in g.code && b in g.code
    decreases g.rank(a), 2, 0
  {
    if a in ids then (if ids[a] == b then Some(ids) else None)
    else if !deep then (if a == b then Some(ids[a := b]) else None)
    else Checked(g, deep, ids, a, b)
  }

  ghost function Checked(g: Graph, deep: bool, ids: Ids, a: Id, b: Id): Option<Ids>
    requires WellFormed(g) && a in g.code && b in g.code
    decreases g.rank(a), 1, 0
  {
    var s, t := g.code[a], g.code[b];
    assert WellFormedAt(g, a) && WellFormedAt(g, b);
    if !SameType(s.kind, t.kind) then None
    else if a == b then Some(ids)
    else if !Stable(g, s.kind) || Essence(s.kind) != Essence(t.kind) then None
    else if s.kind.RangeAssumption? then
      (assert OperandBefore(g, a, s.operands[0]) && OperandBefore(g, b, t.operands[0]);
       Registered(Mapped(g, deep, ids, s.operands[0].value, t.operands[0].value), a, b))
    else if |s.operands| != |t.operands| then None
    else Registered(OperandsMapped(g, deep, ids, a, b, 0), a, b)
  }

  ghost function OperandsMapped(g: Graph, deep: bool, ids: Ids, a: Id, b: Id, i: nat): Option<Ids>
    requires WellFormed(g) && a in g.code && b in g.code && i <= |g.code[a].operands| == |g.code[b].operands|
    decreases g.rank(a), 0, |g.code[a].operands| - i
  {
    assert WellFormedAt(g, a) && WellFormedAt(g, b);
    if i == |g.code[a].operands| then Some(ids)
    else
      var x, y := g.code[a].operands[i], g.code[b].operands[i];
      assert OperandBefore(g, a, x) && OperandBefore(g, b, y);
      if x.None? != y.None? then None
      else if x.None? then OperandsMapped(g, deep, ids, a, b, i + 1)
      else
        var r := Mapped(g, deep, ids, x.value, y.value);
        if r.None? then None else OperandsMapped(g, deep, r.value, a, b, i + 1)
  }

  function Registered(r: Option<Ids>, a: Id, b: Id): Option<Ids> {
    if r.None? then None
    else if a !in r.value then Some(r.value[a := b])
    else if r.value[a] == b then r
    else None
  }

  class ValueComparator {
    const recursivelyCheck: bool
    var idMap: Ids
    var same: bool

    constructor (idMap: Option<Ids>)
      ensures recursivelyCheck == idMap.Some? && this.idMap == Start(idMap) && same
    {
      recursivelyCheck, this.idMap, same := idMap.Some?, Start(idMap), true;
    }

    /** The state after a check that gives `r`: the map matters only while all is the same. */
    predicate After(was: bool, r: Option<Ids>)
      reads this
    {
      same == (was && r.Some?) && (same ==> r == Some(idMap))
    }

    method MapId(a: Id, b: Id)
      modifies this
      ensures After(old(same), Registered(Some(old(idMap)), a, b))
    {
      if a !in idMap {
        idMap := idMap[a := b];
      } else if idMap[a] != b {
        same := false;
      }
    }

    method CheckMapping(g: Graph, a: Id, b: Id)
      requires WellFormed(g) && a in g.code && b in g.code
      modifies this
      ensures After(old(same), Mapped(g, recursivelyCheck, old(idMap), a, b))
      decreases g.rank(a), 2
    {
      if a in idMap {
        if idMap[a] != b {
          same := false;
        }
        return;
      }
      if !recursivelyCheck {
        if a != b {
          same := false;
        }
        idMap := idMap[a := b];
      } else {
        BasicCheck(g, a, b);
      }
    }

    method CheckOperands(g: Graph, a: Id, b: Id) returns (stopped: bool)
      requires WellFormed(g) && a in g.code && b in g.code && |g.code[a].operands| == |g.code[b].operands|
      modifies this
      ensures After(old(same), OperandsMapped(g, recursivelyCheck, old(idMap), a, b, 0)) && (stopped ==> !same)
      decreases g.rank(a), 0
    {
      ghost var first := OperandsMapped(g, recursivelyCheck, idMap, a, b, 0);
      assert WellFormedAt(g, a) && WellFormedAt(g, b);
      var s, t := g.code[a], g.code[b];
      for i := 0 to |s.operands|
        invariant same ==> old(same) && first == OperandsMapped(g, recursivelyCheck, idMap, a, b, i)
        invariant !same ==> !old(same) || first.None?
      {
        assert OperandBefore(g, a, s.operands[i]) && OperandBefore(g, b, t.operands[i]);
        if s.operands[i].None? != t.operands[i].None? {
          same := false;
          return true;
        }
        if s.operands[i].Some? {
          CheckMapping(g, s.operands[i].value, t.operands[i].value);
        }
      }
      return false;
    }

    method BasicCheck(g: Graph, a: Id, b: Id)
      requires WellFormed(g) && a in g.code && b in g.code
      modifies this
      ensures After(old(same), Checked(g, recursivelyCheck, old(idMap), a, b))
      decreases g.rank(a), 1
    {
      var s, t := g.code[a], g.code[b];
      assert WellFormedAt(g, a) && WellFormedAt(g, b);
      if !SameType(s.kind, t.kind) {
        same := false;
        return;
      }
      if a == b {
        return;
      }
      if !Stable(g, s.kind) {
        same := false;
        return;
      }
      if Essence(s.kind) != Essence(t.kind) {
        same := false;
        return;
      }
      if s.kind.RangeAssumption? {
        assert OperandBefore(g, a, s.operands[0]) && OperandBefore(g, b, t.operands[0]);
        CheckMapping(g, s.operands[0].value, t.operands[0].value);
      } else {
        if |s.operands| != |t.operands| {
          same := false;
          return;
        }
        var stopped := CheckOperands(g, a, b);
        if stopped {
          return;
        }
      }
      MapId(a, b);
    }
  }

  function Start(idMap: Option<Ids>): Ids {
    match idMap
    case None => map[]
    case Some(m) => m
  }

  /******* Values *******/

  /** The value of each statement, and what the operations compute. */
  type Env = Id -> int
  type Eval = (Kind, seq<Option<int>>) -> int

  function ValuesOf(env: Env, xs: seq<Option<Id>>): (r: seq<Option<int>>)
    ensures |r| == |xs| && forall i | 0 <= i < |xs| :: r[i] == ValueOf(env, xs[i])
  {
    seq(|xs|, i requires 0 <= i < |xs| => ValueOf(env, xs[i]))
  }

  function ValueOf(env: Env, x: Option<Id>): Option<int> {
    match x
    case None => None
    case Some(a) => Some(env(a))
  }

  /** Statements of stable classes compute their value; a range assumption passes its input on. The
      others may have any value. */
  ghost predicate Computed(g: Graph, eval: Eval, env: Env) {
    forall a | a in g.code && Stable(g, g.code[a].kind) :: ComputedAt(g, eval, env, a)
  }

  ghost predicate ComputedAt(g: Graph, eval: Eval, env: Env, a: Id)
    requires a in g.code
  {
    var s := g.code[a];
    if s.kind.RangeAssumption? && |s.operands| == 2 && s.operands[0].Some? then env(a) == env(s.operands[0].value)
    else env(a) == eval(Essence(s.kind), ValuesOf(env, s.operands))
  }

  /** All pairs in the map have equal values. */
  ghost predicate Respects(env: Env, ids: Ids) {
    forall a | a in ids :: env(a) == env(ids[a])
  }

  lemma {:induction false} MappedSound(g: Graph, eval: Eval, env: Env, deep: bool, ids: Ids, a: Id, b: Id)
    requires WellFormed(g) && a in g.code && b in g.code && Computed(g, eval, env) && Respects(env, ids)
    ensures var r := Mapped(g, deep, ids, a, b);
            r.Some? ==> env(a) == env(b) && Respects(env, r.value)
    decreases g.rank(a), 2, 0
  {
    if a !in ids && deep {
      CheckedSound(g, eval, env, deep, ids, a, b);
    }
  }

  /** While the comparison succeeds, every pair in the map has equal values, and so have `a` and `b`. */
  lemma {:induction false} CheckedSound(g: Graph, eval: Eval, env: Env, deep: bool, ids: Ids, a: Id, b: Id)
    requires WellFormed(g) && a in g.code && b in g.code && Computed(g, eval, env) && Respects(env, ids)
    ensures var r := Checked(g, deep, ids, a, b);
            r.Some? ==> env(a) == env(b) && Respects(env, r.value)
    decreases g.rank(a), 1, 0
  {
    var s, t := g.code[a], g.code[b];
    assert WellFormedAt(g, a) && WellFormedAt(g, b);
    if SameType(s.kind, t.kind) && a != b && Stable(g, s.kind) && Essence(s.kind) == Essence(t.kind) {
      assert ComputedAt(g, eval, env, a) && ComputedAt(g, eval, env, b);
      if s.kind.RangeAssumption? {
        assert OperandBefore(g, a, s.operands[0]) && OperandBefore(g, b, t.operands[0]);
        MappedSound(g, eval, env, deep, ids, s.operands[0].value, t.operands[0].value);
      } else if |s.operands| == |t.operands| {
        OperandsSound(g, eval, env, deep, ids, a, b, 0);
      }
    }
  }

  lemma {:induction false} OperandsSound(g: Graph, eval: Eval, env: Env, deep: bool, ids: Ids, a: Id, b: Id, i: nat)
    requires WellFormed(g) && a in g.code && b in g.code && i <= |g.code[a].operands| == |g.code[b].operands|
    requires Computed(g, eval, env) && Respects(env, ids)
    requires forall j | 0 <= j < i :: ValueOf(env, g.code[a].operands[j]) == ValueOf(env, g.code[b].operands[j])
    ensures var r := OperandsMapped(g, deep, ids, a, b, i);
            r.Some? ==> Respects(env, r.value) && ValuesOf(env, g.code[a].operands) == ValuesOf(env, g.code[b].operands)
    decreases g.rank(a), 0, |g.code[a].operands| - i
  {
    assert WellFormedAt(g, a) && WellFormedAt(g, b);
    if i < |g.code[a].operands| {
      var x, y := g.code[a].operands[i], g.code[b].operands[i];
      assert OperandBefore(g, a, x) && OperandBefore(g, b, y);
      if x.None? && y.None? {
        OperandsSound(g, eval, env, deep, ids, a, b, i + 1);
      } else if x.Some? && y.Some? {
        MappedSound(g, eval, env, deep, ids, x.value, y.value);
        var r := Mapped(g, deep, ids, x.value, y.value);
        if r.Some? {
          OperandsSound(g, eval, env, deep, r.value, a, b, i + 1);
        }
      }
    }
  }

  /******* Correspondences are found *******/

  /** `f` pairs statements of the same class and with the same fields that matter, whose operands it pairs too;
      the base of a range assumption does not matter. */
  ghost predicate Correspondence(g: Graph, f: Ids) {
    forall a | a in f :: CorrespondAt(g, f, a)
  }

  ghost predicate CorrespondAt(g: Graph, f: Ids, a: Id)
    requires a in f
  {
    var b := f[a];
    && a in g.code && b in g.code && SameType(g.code[a].kind, g.code[b].kind)
    && (a != b ==>
          && Stable(g, g.code[a].kind) && SameFields(g.code[a].kind, g.code[b].kind)
          && |g.code[a].operands| == |g.code[b].operands|
          && forall i | 0 <= i < |g.code[a].operands| && (i == 0 || !g.code[a].kind.RangeAssumption?) ::
            PairedBy(f, g.code[a].operands[i], g.code[b].operands[i]))
  }

  ghost predicate PairedBy(f: Ids, x: Option<Id>, y: Option<Id>) {
    match x
    case None => y.None?
    case Some(a) => a in f && y == Some(f[a])
  }

  ghost predicate Within(ids: Ids, f: Ids) {
    forall a | a in ids :: a in f && ids[a] == f[a]
  }

  /** A recursive comparison that starts inside a correspondence succeeds and stays inside. */
  lemma {:induction false} CheckedComplete(g: Graph, f: Ids, ids: Ids, a: Id)
    requires WellFormed(g) && Correspondence(g, f) && Within(ids, f) && a in f && a in g.code && f[a] in g.code
    ensures var r := Checked(g, true, ids, a, f[a]); r.Some? && Within(r.value, f)
    decreases g.rank(a), 1, 0
  {
    var b := f[a];
    assert CorrespondAt(g, f, a) && WellFormedAt(g, a) && WellFormedAt(g, b);
    EssenceSame(g.code[a].kind, g.code[b].kind);
    if a != b {
      if g.code[a].kind.RangeAssumption? {
        var x := g.code[a].operands[0];
        assert OperandBefore(g, a, x) && PairedBy(f, x, g.code[b].operands[0])
               && OperandBefore(g, b, g.code[b].operands[0]);
        if x.value !in ids {
          CheckedComplete(g, f, ids, x.value);
        }
      } else {
        OperandsComplete(g, f, ids, a, 0);
      }
    }
  }

  lemma {:induction false} OperandsComplete(g: Graph, f: Ids, ids: Ids, a: Id, i: nat)
    requires WellFormed(g) && Correspondence(g, f) && Within(ids, f) && a in f && a in g.code && f[a] in g.code
             && a != f[a]
    requires i <= |g.code[a].operands| == |g.code[f[a]].operands| && !g.code[a].kind.RangeAssumption?
    ensures var r := OperandsMapped(g, true, ids, a, f[a], i); r.Some? && Within(r.value, f)
    decreases g.rank(a), 0, |g.code[a].operands| - i
  {
    var b := f[a];
    assert CorrespondAt(g, f, a) && WellFormedAt(g, a) && WellFormedAt(g, b);
    if i < |g.code[a].operands| {
      var x, y := g.code[a].operands[i], g.code[b].operands[i];
      assert OperandBefore(g, a, x) && OperandBefore(g, b, y) && PairedBy(f, x, y);
      if x.None? {
        OperandsComplete(g, f, ids, a, i + 1);
      } else {
        if x.value !in ids {
          CheckedComplete(g, f, ids, x.value);
        }
        OperandsComplete(g, f, Mapped(g, true, ids, x.value, y.value).value, a, i + 1);
      }
    }
  }

  /******* Without a map *******/

  /** Different statements of one class, with the same fields that matter and the same operands, of which a
      range assumption is known by its input. */
  predicate Twins(g: Graph, a: Id, b: Id)
    requires a in g.code && b in g.code
  {
    var s, t := g.code[a], g.code[b];
    && Stable(g, s.kind) && SameFields(s.kind, t.kind)
    && if s.kind.RangeAssumption? then |s.operands| > 0 && |t.operands| > 0 && s.operands[0] == t.operands[0]
       else s.operands == t.operands
  }

  /** Only identical statements were paired, and none that comes after `a`. */
  ghost predicate IdentityBefore(g: Graph, ids: Ids, a: Id) {
    forall x | x in ids :: ids[x] == x && g.rank(x) < g.rank(a)
  }

  lemma {:induction false} OperandsShallow(g: Graph, ids: Ids, a: Id, b: Id, i: nat)
    requires WellFormed(g) && a in g.code && b in g.code && i <= |g.code[a].operands| == |g.code[b].operands|
    requires IdentityBefore(g, ids, a)
    ensures var r := OperandsMapped(g, false, ids, a, b, i);
            && (r.Some? <==> g.code[a].operands[i..] == g.code[b].operands[i..])
            && (r.Some? ==> IdentityBefore(g, r.value, a))
    decreases |g.code[a].operands| - i
  {
    assert WellFormedAt(g, a) && WellFormedAt(g, b);
    var xs, ys := g.code[a].operands, g.code[b].operands;
    if i < |xs| {
      assert OperandBefore(g, a, xs[i]) && OperandBefore(g, b, ys[i]);
      assert xs[i..] == [xs[i]] + xs[i + 1..] && ys[i..] == [ys[i]] + ys[i + 1..];
      if xs[i].None? && ys[i].None? {
        OperandsShallow(g, ids, a, b, i + 1);
      } else if xs[i].Some? && xs[i] == ys[i] {
        OperandsShallow(g, ids[xs[i].value := xs[i].value], a, b, i + 1);
        assert xs[i].value in ids ==> ids[xs[i].value := xs[i].value] == ids;
      }
    }
  }

  /** Without a map, exactly the twins are found. */
  lemma ShallowExactly(g: Graph, a: Id, b: Id)
    requires WellFormed(g) && a in g.code && b in g.code && a != b
    ensures Checked(g, false, map[], a, b).Some? <==> Twins(g, a, b)
  {
    var s, t := g.code[a], g.code[b];
    assert WellFormedAt(g, a) && WellFormedAt(g, b);
    if SameType(s.kind, t.kind) {
      EssenceSame(s.kind, t.kind);
      if s.kind.RangeAssumption? {
        assert OperandBefore(g, a, s.operands[0]) && OperandBefore(g, b, t.operands[0]);
      } else if |s.operands| == |t.operands| {
        OperandsShallow(g, map[], a, b, 0);
        assert s.operands[0..] == s.operands && t.operands[0..] == t.operands;
      }
    }
  }

  /******* The result *******/

  /** `same_value`. Statements it calls the same have the same value in all environments in which the
      pairs of the given map have; with a map it finds every correspondence around the given pairs. */
  method SameValue(g: Graph, a: Id, b: Id, idMap: Option<Ids>) returns (r: bool)
    requires WellFormed(g) && a in g.code && b in g.code
    ensures r ==> forall eval: Eval, env: Env | Computed(g, eval, env) && Respects(env, Start(idMap)) ::
              env(a) == env(b)
    ensures idMap.Some? && (exists f :: Correspondence(g, f) && Within(idMap.value, f) && a in f && f[a] == b) ==> r
    ensures idMap.None? ==> (r <==> a == b || Twins(g, a, b))
  {
    if a == b {
      return true;
    }
    var comparator := new ValueComparator(idMap);
    comparator.BasicCheck(g, a, b);
    r := comparator.same;
    forall eval: Eval, env: Env | r && Computed(g, eval, env) && Respects(env, Start(idMap))
      ensures env(a) == env(b)
    {
      CheckedSound(g, eval, env, idMap.Some?, Start(idMap), a, b);
    }
    forall f | idMap.Some? && Correspondence(g, f) && Within(idMap.value, f) && a in f && f[a] == b
      ensures r
    {
      CheckedComplete(g, f, idMap.value, a);
    }
    if idMap.None? {
      ShallowExactly(g, a, b);
    }
  }
}

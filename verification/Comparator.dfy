/**
 Equality of statement trees up to the numbering of their statements, as `same_statements` decides it
 when it is given no map of numbers.
 */
module Comparator {
  import opened Options

  type Id = nat

  /** The nesting of statements; what a statement is and its operands are in a table. */
  datatype Block = End | Cons(first: Shape, rest: Block)

  datatype Shape =
    | Leaf(id: Id)
    | Branch(id: Id, yes: Option<Block>, no: Option<Block>)
    | Body(id: Id, body: Block)

  /** A statement: its class, its registered fields, and its operands, which may be null. */
  datatype Instr = Instr(typ: nat, fields: nat, operands: seq<Option<Id>>)

  type Table = map<Id, Instr>

  type Ids = map<Id, Id>

  function Size(b: Block): nat {
    match b
    case End => 0
    case Cons(_, rest) => 1 + Size(rest)
  }

  function ShapeIds(s: Shape): set<Id> {
    match s
    case Leaf(id) => {id}
    case Branch(id, yes, no) => {id} + OptionIds(yes) + OptionIds(no)
    case Body(id, body) => {id} + BlockIds(body)
  }

  function OptionIds(b: Option<Block>): set<Id> {
    match b
    case None => {}
    case Some(c) => BlockIds(c)
  }

  function BlockIds(b: Block): set<Id> {
    match b
    case End => {}
    case Cons(s, rest) => ShapeIds(s) + BlockIds(rest)
  }

  /** All statements are different. */
  predicate Distinct(b: Block) {
    match b
    case End => true
    case Cons(s, rest) => ShapeDistinct(s) && Distinct(rest) && ShapeIds(s) !! BlockIds(rest)
  }

  predicate ShapeDistinct(s: Shape) {
    match s
    case Leaf(_) => true
    case Branch(id, yes, no) =>
      && (yes.Some? ==> Distinct(yes.value)) && (no.Some? ==> Distinct(no.value))
      && id !in OptionIds(yes) + OptionIds(no) && OptionIds(yes) !! OptionIds(no)
    case Body(id, body) => Distinct(body) && id !in BlockIds(body)
  }

  /******* Checks of one pair of statements *******/

  /** The map of numbers after a successful check of two operands. */
  function Mapped(ids: Ids, a: Id, b: Id): Option<Ids> {
    if a in ids then (if ids[a] == b then Some(ids) else None)
    else if a == b then Some(ids[a := b])
    else None
  }

  function OperandsMapped(ids: Ids, xs: seq<Option<Id>>, ys: seq<Option<Id>>): Option<Ids>
    requires |xs| == |ys|
    decreases |xs|
  {
    if xs == [] then Some(ids)
    else if xs[0].None? != ys[0].None? then None
    else if xs[0].None? then OperandsMapped(ids, xs[1..], ys[1..])
    else
      match Mapped(ids, xs[0].value, ys[0].value)
      case None => None
      case Some(more) => OperandsMapped(more, xs[1..], ys[1..])
  }

  function Registered(ids: Ids, a: Id, b: Id): Option<Ids> {
    if a !in ids then Some(ids[a := b]) else if ids[a] == b then Some(ids) else None
  }

  /** `basic_check`: the class, the fields, the operands. */
  function Checked(code: Table, ids: Ids, a: Id, b: Id): Option<Ids>
    requires a in code && b in code
  {
    var s, t := code[a], code[b];
    if s.typ != t.typ then None
    else if a == b then Some(ids)
    else if s.fields != t.fields || |s.operands| != |t.operands| then None
    else
      match OperandsMapped(ids, s.operands, t.operands)
      case None => None
      case Some(more) => Registered(more, a, b)
  }

  /******* Checks of trees *******/

  /** The class of a statement decides its constructor; a branch that only the second tree has is not
      looked at. */
  function ShapeCompared(code: Table, ids: Ids, s: Shape, t: Shape): Option<Ids>
    requires ShapeIds(s) + ShapeIds(t) <= code.Keys
    decreases s
  {
    match s
    case Leaf(a) => if t.Leaf? then Checked(code, ids, a, t.id) else None
    case Branch(a, yes, no) =>
      if !t.Branch? then None
      else
        var more := Checked(code, ids, a, t.id);
        if more.None? then None else BranchesCompared(code, more.value, s, t)
    case Body(a, body) =>
      if !t.Body? then None
      else
        var more := Checked(code, ids, a, t.id);
        if more.None? then None else BlockCompared(code, more.value, body, t.body)
  }

  function BranchesCompared(code: Table, ids: Ids, s: Shape, t: Shape): Option<Ids>
    requires s.Branch? && t.Branch? && ShapeIds(s) + ShapeIds(t) <= code.Keys
    decreases s, 0
  {
    var more := OptionCompared(code, ids, s.yes, t.yes);
    if more.None? then None else OptionCompared(code, more.value, s.no, t.no)
  }

  function OptionCompared(code: Table, ids: Ids, b: Option<Block>, c: Option<Block>): Option<Ids>
    requires OptionIds(b) + OptionIds(c) <= code.Keys
    decreases b
  {
    if b.None? then Some(ids)
    else if c.None? then None
    else BlockCompared(code, ids, b.value, c.value)
  }

  function BlockCompared(code: Table, ids: Ids, b: Block, c: Block): Option<Ids>
    requires BlockIds(b) + BlockIds(c) <= code.Keys
    decreases b
  {
    if Size(b) != Size(c) then None
    else if b.End? then Some(ids)
    else
      match ShapeCompared(code, ids, b.first, c.first)
      case None => None
      case Some(more) => BlockCompared(code, more, b.rest, c.rest)
  }

  class IRNodeComparator {
    var idMap: Ids
    var same: bool

    constructor ()
      ensures idMap == map[] && same
    {
      idMap, same := map[], true;
    }

    /** The state after a check that gives `r`: the map matters only while all is the same. */
    predicate After(was: bool, r: Option<Ids>)
      reads this
    {
      same == (was && r.Some?) && (same ==> r == Some(idMap))
    }

    method CheckMapping(a: Id, b: Id)
      modifies this
      ensures After(old(same), Mapped(old(idMap), a, b))
    {
      if a in idMap {
        if idMap[a] != b {
          same := false;
        }
        return;
      }
      if a != b {
        same := false;
      }
      idMap := idMap[a := b];
    }

    method MapId(a: Id, b: Id)
      modifies this
      ensures After(old(same), Registered(old(idMap), a, b))
    {
      if a !in idMap {
        idMap := idMap[a := b];
      } else if idMap[a] != b {
        same := false;
      }
    }

    method BasicCheck(code: Table, a: Id, b: Id)
      requires a in code && b in code
      modifies this
      ensures After(old(same), Checked(code, old(idMap), a, b))
    {
      var s, t := code[a], code[b];
      if s.typ != t.typ {
        same := false;
        return;
      }
      if a == b {
        return;
      }
      if s.fields != t.fields {
        same := false;
        return;
      }
      if |s.operands| != |t.operands| {
        same := false;
        return;
      }
      var i := 0;
      while i < |s.operands|
        invariant 0 <= i <= |s.operands|
        invariant same ==> old(same)
        invariant same ==>
                    OperandsMapped(old(idMap), s.operands, t.operands)
                    == OperandsMapped(idMap, s.operands[i..], t.operands[i..])
        invariant !same ==> !old(same) || OperandsMapped(old(idMap), s.operands, t.operands).None?
      {
        if s.operands[i].None? != t.operands[i].None? {
          same := false;
          return;
        }
        if s.operands[i].Some? {
          CheckMapping(s.operands[i].value, t.operands[i].value);
        }
        i := i + 1;
      }
      MapId(a, b);
    }

    method VisitOption(code: Table, b: Option<Block>, c: Option<Block>)
      requires OptionIds(b) + OptionIds(c) <= code.Keys
      modifies this
      ensures After(old(same), OptionCompared(code, old(idMap), b, c))
      decreases b, 3
    {
      if b.Some? {
        if c.None? {
          same := false;
          return;
        }
        VisitBlock(code, b.value, c.value);
      }
    }

    method VisitShape(code: Table, s: Shape, t: Shape)
      requires ShapeIds(s) + ShapeIds(t) <= code.Keys
      modifies this
      ensures After(old(same), ShapeCompared(code, old(idMap), s, t))
      decreases s, 1
    {
      if s.Leaf? != t.Leaf? || s.Branch? != t.Branch? {
        same := false;
        return;
      }
      BasicCheck(code, s.id, t.id);
      if !same {
        return;
      }
      match s {
        case Leaf(_) =>
        case Branch(_, yes, no) =>
          VisitOption(code, yes, t.yes);
          if same {
            VisitOption(code, no, t.no);
          }
        case Body(_, body) => VisitBlock(code, body, t.body);
      }
    }

    method VisitBlock(code: Table, b: Block, c: Block)
      requires BlockIds(b) + BlockIds(c) <= code.Keys
      modifies this
      ensures After(old(same), BlockCompared(code, old(idMap), b, c))
      decreases b, 2
    {
      if Size(b) != Size(c) {
        same := false;
        return;
      }
      var x, y := b, c;
      while x.Cons?
        invariant BlockIds(x) + BlockIds(y) <= code.Keys && Size(x) == Size(y)
        invariant x == b || x < b
        invariant same ==> old(same) && BlockCompared(code, old(idMap), b, c) == BlockCompared(code, idMap, x, y)
        invariant !same ==> !old(same) || BlockCompared(code, old(idMap), b, c).None?
        decreases x
      {
        VisitShape(code, x.first, y.first);
        if !same {
          break;
        }
        x, y := x.rest, y.rest;
      }
    }
  }

  /******* What equality means *******/

  /** The second tree has the nesting of the first; it may have branches that the first has not. */
  predicate ShapeCovered(s: Shape, t: Shape) {
    match s
    case Leaf(_) => t.Leaf?
    case Branch(_, yes, no) => t.Branch? && OptionCovered(yes, t.yes) && OptionCovered(no, t.no)
    case Body(_, body) => t.Body? && BlockCovered(body, t.body)
  }

  predicate OptionCovered(b: Option<Block>, c: Option<Block>) {
    match b
    case None => true
    case Some(x) => c.Some? && BlockCovered(x, c.value)
  }

  predicate BlockCovered(b: Block, c: Block) {
    match b
    case End => c.End?
    case Cons(s, rest) => c.Cons? && ShapeCovered(s, c.first) && BlockCovered(rest, c.rest)
  }

  /** Statements at the same position. */
  function ShapePairs(s: Shape, t: Shape): (r: Ids)
    requires ShapeCovered(s, t)
    ensures r.Keys == ShapeIds(s)
    decreases s
  {
    match s
    case Leaf(a) => map[a := t.id]
    case Branch(a, yes, no) => map[a := t.id] + (OptionPairs(yes, t.yes) + OptionPairs(no, t.no))
    case Body(a, body) => map[a := t.id] + BlockPairs(body, t.body)
  }

  function OptionPairs(b: Option<Block>, c: Option<Block>): (r: Ids)
    requires OptionCovered(b, c)
    ensures r.Keys == OptionIds(b)
    decreases b
  {
    match b
    case None => map[]
    case Some(x) => BlockPairs(x, c.value)
  }

  function BlockPairs(b: Block, c: Block): (r: Ids)
    requires BlockCovered(b, c)
    ensures r.Keys == BlockIds(b)
    decreases b
  {
    match b
    case End => map[]
    case Cons(s, rest) => ShapePairs(s, c.first) + BlockPairs(rest, c.rest)
  }

  /** Operands correspond: inside the trees by position, outside by identity. */
  predicate OperandCorresponds(pairs: Ids, x: Option<Id>, y: Option<Id>) {
    match x
    case None => y.None?
    case Some(a) => y == Some(if a in pairs then pairs[a] else a)
  }

  ghost predicate Corresponds(code: Table, pairs: Ids, a: Id, b: Id) {
    && a in code && b in code && code[a].typ == code[b].typ && code[a].fields == code[b].fields
    && |code[a].operands| == |code[b].operands|
    && forall i | 0 <= i < |code[a].operands| :: OperandCorresponds(pairs, code[a].operands[i], code[b].operands[i])
  }

  /** The pairs in `part` correspond. */
  ghost predicate AllCorrespond(code: Table, pairs: Ids, part: Ids) {
    forall a | a in part :: Corresponds(code, pairs, a, part[a])
  }

  /** Operands that belong to the tree, whose statements are `all`, come before the statements that use
      them; `done` holds those that came before. */
  predicate OperandsDone(code: Table, all: set<Id>, a: Id, done: set<Id>) {
    a in code && forall i | 0 <= i < |code[a].operands| :: OperandDone(all, done, code[a].operands[i])
  }

  predicate OperandDone(all: set<Id>, done: set<Id>, x: Option<Id>) {
    x.Some? && x.value in all ==> x.value in done
  }

  predicate ShapeScoped(code: Table, all: set<Id>, s: Shape, done: set<Id>) {
    && OperandsDone(code, all, s.id, done)
    && match s
       case Leaf(_) => true
       case Branch(id, yes, no) => OptionScoped(code, all, yes, done + {id})
         && OptionScoped(code, all, no, done + {id} + OptionIds(yes))
       case Body(id, body) => BlockScoped(code, all, body, done + {id})
  }

  predicate OptionScoped(code: Table, all: set<Id>, b: Option<Block>, done: set<Id>) {
    match b
    case None => true
    case Some(x) => BlockScoped(code, all, x, done)
  }

  predicate BlockScoped(code: Table, all: set<Id>, b: Block, done: set<Id>) {
    match b
    case End => true
    case Cons(s, rest) => ShapeScoped(code, all, s, done) && BlockScoped(code, all, rest, done + ShapeIds(s))
  }

  /******* The comparison decides it *******/

  /** Trees with different nesting differ. */
  lemma {:induction false} UncoveredDiffers(code: Table, ids: Ids, b: Block, c: Block)
    requires BlockIds(b) + BlockIds(c) <= code.Keys
    ensures BlockCompared(code, ids, b, c).Some? ==> BlockCovered(b, c)
    decreases b
  {
    if b.Cons? && c.Cons? {
      var r := ShapeCompared(code, ids, b.first, c.first);
      ShapeUncoveredDiffers(code, ids, b.first, c.first);
      if r.Some? {
        UncoveredDiffers(code, r.value, b.rest, c.rest);
      }
    }
  }

  lemma {:induction false} ShapeUncoveredDiffers(code: Table, ids: Ids, s: Shape, t: Shape)
    requires ShapeIds(s) + ShapeIds(t) <= code.Keys
    ensures ShapeCompared(code, ids, s, t).Some? ==> ShapeCovered(s, t)
    decreases s
  {
    if s.Branch? && t.Branch? && Checked(code, ids, s.id, t.id).Some? {
      var more := Checked(code, ids, s.id, t.id).value;
      assert ShapeCompared(code, ids, s, t) == BranchesCompared(code, more, s, t);
      OptionUncoveredDiffers(code, more, s.yes, t.yes);
      var most := OptionCompared(code, more, s.yes, t.yes);
      if most.Some? {
        OptionUncoveredDiffers(code, most.value, s.no, t.no);
      }
    } else if s.Body? && t.Body? && Checked(code, ids, s.id, t.id).Some? {
      UncoveredDiffers(code, Checked(code, ids, s.id, t.id).value, s.body, t.body);
    }
  }

  lemma {:induction false} OptionUncoveredDiffers(code: Table, ids: Ids, b: Option<Block>, c: Option<Block>)
    requires OptionIds(b) + OptionIds(c) <= code.Keys
    ensures OptionCompared(code, ids, b, c).Some? ==> OptionCovered(b, c)
    decreases b
  {
    if b.Some? && c.Some? {
      UncoveredDiffers(code, ids, b.value, c.value);
    }
  }

  /** The map holds the pairs seen, and otherwise statements outside the tree with themselves. */
  ghost predicate Good(ids: Ids, seen: Ids, all: set<Id>) {
    && seen.Keys <= ids.Keys
    && (forall a | a in seen :: ids[a] == seen[a])
    && (forall a | a in ids && a !in seen :: ids[a] == a && a !in all)
  }

  ghost predicate Part(p: Ids, q: Ids) {
    p.Keys <= q.Keys && forall a | a in p :: p[a] == q[a]
  }

  lemma {:induction false} OperandsExact(ids: Ids, seen: Ids, pairs: Ids, xs: seq<Option<Id>>, ys: seq<Option<Id>>)
    requires |xs| == |ys| && Good(ids, seen, pairs.Keys) && Part(seen, pairs)
    requires forall i | 0 <= i < |xs| :: OperandDone(pairs.Keys, seen.Keys, xs[i])
    ensures OperandsMapped(ids, xs, ys).Some? <==> forall i | 0 <= i < |xs| :: OperandCorresponds(pairs, xs[i], ys[i])
    ensures OperandsMapped(ids, xs, ys).Some? ==> Good(OperandsMapped(ids, xs, ys).value, seen, pairs.Keys)
    decreases |xs|
  {
    if xs != [] {
      var x, y, xs1, ys1 := xs[0], ys[0], xs[1..], ys[1..];
      assert OperandDone(pairs.Keys, seen.Keys, x);
      forall i | 0 <= i < |xs1|
        ensures OperandDone(pairs.Keys, seen.Keys, xs1[i])
      {
        var j := i + 1;
        assert xs1[i] == xs[j];
      }
      OneOperand(ids, seen, pairs, x, y);
      AllFromFirst(pairs, xs, ys);
      if x.None? && y.None? {
        OperandsExact(ids, seen, pairs, xs1, ys1);
      } else if x.Some? && y.Some? && Mapped(ids, x.value, y.value).Some? {
        OperandsExact(Mapped(ids, x.value, y.value).value, seen, pairs, xs1, ys1);
      }
    }
  }

  lemma OneOperand(ids: Ids, seen: Ids, pairs: Ids, x: Option<Id>, y: Option<Id>)
    requires Good(ids, seen, pairs.Keys) && Part(seen, pairs) && OperandDone(pairs.Keys, seen.Keys, x)
    ensures x.Some? && y.Some? ==> (Mapped(ids, x.value, y.value).Some? <==> OperandCorresponds(pairs, x, y))
    ensures x.Some? && y.Some? && Mapped(ids, x.value, y.value).Some? ==>
            Good(Mapped(ids, x.value, y.value).value, seen, pairs.Keys)
  {
  }

  lemma AllFromFirst(pairs: Ids, xs: seq<Option<Id>>, ys: seq<Option<Id>>)
    requires |xs| == |ys| > 0
    ensures (forall i | 0 <= i < |xs| :: OperandCorresponds(pairs, xs[i], ys[i])) <==>
            OperandCorresponds(pairs, xs[0], ys[0])
            && forall i | 0 <= i < |xs[1..]| :: OperandCorresponds(pairs, xs[1..][i], ys[1..][i])
  {
    forall i | 0 < i < |xs|
      ensures xs[i] == xs[1..][i - 1] && ys[i] == ys[1..][i - 1]
    {
    }
  }

  /** One statement. */
  lemma CheckedExact(code: Table, ids: Ids, seen: Ids, pairs: Ids, a: Id, b: Id)
    requires a in code && b in code && Good(ids, seen, pairs.Keys) && Part(seen, pairs)
    requires a in pairs && pairs[a] == b && a !in seen && a != b && OperandsDone(code, pairs.Keys, a, seen.Keys)
    ensures Checked(code, ids, a, b).Some? <==> Corresponds(code, pairs, a, b)
    ensures Checked(code, ids, a, b).Some? ==> Good(Checked(code, ids, a, b).value, seen + map[a := b], pairs.Keys)
    ensures Part(seen + map[a := b], pairs)
  {
    if |code[a].operands| == |code[b].operands| {
      OperandsExact(ids, seen, pairs, code[a].operands, code[b].operands);
    }
  }

  lemma Regroup(p: Ids, q: Ids, r: Ids)
    ensures p + q + r == p + (q + r)
  {
  }

  lemma PartSplit(p: Ids, q: Ids, whole: Ids)
    requires Part(p + q, whole) && p.Keys !! q.Keys
    ensures Part(p, whole) && Part(q, whole)
  {
    forall a | a in p
      ensures a in whole && whole[a] == p[a]
    {
      assert (p + q)[a] == p[a];
    }
    forall a | a in q
      ensures a in whole && whole[a] == q[a]
    {
      assert (p + q)[a] == q[a];
    }
  }

  lemma PartJoin(p: Ids, q: Ids, whole: Ids)
    requires Part(p, whole) && Part(q, whole)
    ensures Part(p + q, whole)
  {
  }

  lemma CorrespondSplit(code: Table, pairs: Ids, p: Ids, q: Ids)
    requires p.Keys !! q.Keys
    ensures AllCorrespond(code, pairs, p + q) <==> AllCorrespond(code, pairs, p) && AllCorrespond(code, pairs, q)
  {
    if AllCorrespond(code, pairs, p + q) {
      forall a | a in p
        ensures Corresponds(code, pairs, a, p[a])
      {
        assert (p + q)[a] == p[a];
      }
      forall a | a in q
        ensures Corresponds(code, pairs, a, q[a])
      {
        assert (p + q)[a] == q[a];
      }
    }
  }

  /** What holds when the comparison reaches a part of the trees with statements `mine` and `other`. */
  ghost predicate Here(code: Table, ids: Ids, seen: Ids, pairs: Ids, mine: set<Id>, other: set<Id>) {
    && mine + other <= code.Keys && mine !! other && mine !! seen.Keys
    && Good(ids, seen, pairs.Keys) && Part(seen, pairs)
  }

  /** The comparison of two blocks succeeds exactly when all statements at the same positions correspond. */
  lemma {:induction false} BlockExact(code: Table, ids: Ids, seen: Ids, pairs: Ids, b: Block, c: Block)
    requires Here(code, ids, seen, pairs, BlockIds(b), BlockIds(c)) && Distinct(b)
             && BlockScoped(code, pairs.Keys, b, seen.Keys)
    requires BlockCovered(b, c) && Part(BlockPairs(b, c), pairs)
    ensures BlockCompared(code, ids, b, c).Some? <==> AllCorrespond(code, pairs, BlockPairs(b, c))
    ensures BlockCompared(code, ids, b, c).Some? ==>
            Good(BlockCompared(code, ids, b, c).value, seen + BlockPairs(b, c), pairs.Keys)
    ensures Part(seen + BlockPairs(b, c), pairs)
    decreases b
  {
    CoveredSize(b, c);
    PartJoin(seen, BlockPairs(b, c), pairs);
    if b.Cons? {
      var p, q := ShapePairs(b.first, c.first), BlockPairs(b.rest, c.rest);
      PartSplit(p, q, pairs);
      CorrespondSplit(code, pairs, p, q);
      ShapeExact(code, ids, seen, pairs, b.first, c.first);
      var r := ShapeCompared(code, ids, b.first, c.first);
      if r.Some? {
        assert (seen + p).Keys == seen.Keys + ShapeIds(b.first);
        BlockExact(code, r.value, seen + p, pairs, b.rest, c.rest);
        Regroup(seen, p, q);
      }
    }
  }

  lemma {:induction false} CoveredSize(b: Block, c: Block)
    requires BlockCovered(b, c)
    ensures Size(b) == Size(c)
  {
    if b.Cons? {
      CoveredSize(b.rest, c.rest);
    }
  }

  lemma {:induction false} OptionExact(code: Table, ids: Ids, seen: Ids, pairs: Ids, b: Option<Block>, c: Option<Block>)
    requires Here(code, ids, seen, pairs, OptionIds(b), OptionIds(c)) && (b.Some? ==> Distinct(b.value))
             && OptionScoped(code, pairs.Keys, b, seen.Keys)
    requires OptionCovered(b, c) && Part(OptionPairs(b, c), pairs)
    ensures OptionCompared(code, ids, b, c).Some? <==> AllCorrespond(code, pairs, OptionPairs(b, c))
    ensures OptionCompared(code, ids, b, c).Some? ==>
            Good(OptionCompared(code, ids, b, c).value, seen + OptionPairs(b, c), pairs.Keys)
    ensures Part(seen + OptionPairs(b, c), pairs)
    decreases b, 0
  {
    if b.Some? {
      BlockExact(code, ids, seen, pairs, b.value, c.value);
    } else {
      assert seen + OptionPairs(b, c) == seen;
    }
  }

  lemma {:induction false} ShapeExact(code: Table, ids: Ids, seen: Ids, pairs: Ids, s: Shape, t: Shape)
    requires Here(code, ids, seen, pairs, ShapeIds(s), ShapeIds(t)) && ShapeDistinct(s)
             && ShapeScoped(code, pairs.Keys, s, seen.Keys)
    requires ShapeCovered(s, t) && Part(ShapePairs(s, t), pairs)
    ensures ShapeCompared(code, ids, s, t).Some? <==> AllCorrespond(code, pairs, ShapePairs(s, t))
    ensures ShapeCompared(code, ids, s, t).Some? ==>
            Good(ShapeCompared(code, ids, s, t).value, seen + ShapePairs(s, t), pairs.Keys)
    ensures Part(seen + ShapePairs(s, t), pairs)
    decreases s
  {
    PartJoin(seen, ShapePairs(s, t), pairs);
    match s
    case Leaf(_) => CheckedExact(code, ids, seen, pairs, s.id, t.id);
    case Branch(_, _, _) => BranchExact(code, ids, seen, pairs, s, t);
    case Body(_, body) =>
      var q := BlockPairs(body, t.body);
      OwnExact(code, ids, seen, pairs, s, t, q);
      var r := Checked(code, ids, s.id, t.id);
      if r.Some? {
        BlockExact(code, r.value, seen + map[s.id := t.id], pairs, body, t.body);
        Regroup(seen, map[s.id := t.id], q);
      }
  }

  lemma {:induction false} BranchExact(code: Table, ids: Ids, seen: Ids, pairs: Ids, s: Shape, t: Shape)
    requires Here(code, ids, seen, pairs, ShapeIds(s), ShapeIds(t)) && ShapeDistinct(s)
             && ShapeScoped(code, pairs.Keys, s, seen.Keys)
    requires s.Branch? && ShapeCovered(s, t) && Part(ShapePairs(s, t), pairs)
    ensures ShapeCompared(code, ids, s, t).Some? <==> AllCorrespond(code, pairs, ShapePairs(s, t))
    ensures ShapeCompared(code, ids, s, t).Some? ==>
            Good(ShapeCompared(code, ids, s, t).value, seen + ShapePairs(s, t), pairs.Keys)
    decreases s, 1
  {
    var q := OptionPairs(s.yes, t.yes) + OptionPairs(s.no, t.no);
    OwnExact(code, ids, seen, pairs, s, t, q);
    var r := Checked(code, ids, s.id, t.id);
    if r.Some? {
      BranchesExact(code, r.value, seen + map[s.id := t.id], pairs, s, t);
      Regroup(seen, map[s.id := t.id], q);
    }
  }

  /** The statement itself, before its blocks with pairs `q`. */
  lemma OwnExact(code: Table, ids: Ids, seen: Ids, pairs: Ids, s: Shape, t: Shape, q: Ids)
    requires Here(code, ids, seen, pairs, ShapeIds(s), ShapeIds(t)) && OperandsDone(code, pairs.Keys, s.id, seen.Keys)
    requires Part(map[s.id := t.id] + q, pairs) && s.id !in q
    ensures Checked(code, ids, s.id, t.id).Some? <==> Corresponds(code, pairs, s.id, t.id)
    ensures Checked(code, ids, s.id, t.id).Some? ==>
            Good(Checked(code, ids, s.id, t.id).value, seen + map[s.id := t.id], pairs.Keys)
    ensures AllCorrespond(code, pairs, map[s.id := t.id] + q)
            <==> Corresponds(code, pairs, s.id, t.id) && AllCorrespond(code, pairs, q)
    ensures Part(seen + map[s.id := t.id], pairs) && Part(q, pairs)
            && (seen + map[s.id := t.id]).Keys == seen.Keys + {s.id}
  {
    var own: Ids := map[s.id := t.id];
    assert own.Keys == {s.id} && own[s.id] == t.id;
    PartSplit(own, q, pairs);
    CorrespondSplit(code, pairs, own, q);
    CheckedExact(code, ids, seen, pairs, s.id, t.id);
  }

  /** One branch after the other. */
  lemma {:induction false} BranchesExact(code: Table, ids: Ids, seen: Ids, pairs: Ids, s: Shape, t: Shape)
    requires s.Branch? && t.Branch?
             && Here(code, ids, seen, pairs, OptionIds(s.yes) + OptionIds(s.no), OptionIds(t.yes) + OptionIds(t.no))
    requires ShapeDistinct(s) && ShapeIds(s) + ShapeIds(t) <= code.Keys && ShapeCovered(s, t)
    requires OptionScoped(code, pairs.Keys, s.yes, seen.Keys)
             && OptionScoped(code, pairs.Keys, s.no, seen.Keys + OptionIds(s.yes))
    requires Part(OptionPairs(s.yes, t.yes) + OptionPairs(s.no, t.no), pairs)
    ensures BranchesCompared(code, ids, s, t).Some?
            <==> AllCorrespond(code, pairs, OptionPairs(s.yes, t.yes) + OptionPairs(s.no, t.no))
    ensures BranchesCompared(code, ids, s, t).Some? ==>
              Good(BranchesCompared(code, ids, s, t).value,
                   seen + (OptionPairs(s.yes, t.yes) + OptionPairs(s.no, t.no)), pairs.Keys)
    decreases s, 0
  {
    var p, q := OptionPairs(s.yes, t.yes), OptionPairs(s.no, t.no);
    PartSplit(p, q, pairs);
    CorrespondSplit(code, pairs, p, q);
    OptionExact(code, ids, seen, pairs, s.yes, t.yes);
    var more := OptionCompared(code, ids, s.yes, t.yes);
    if more.Some? {
      assert (seen + p).Keys == seen.Keys + OptionIds(s.yes);
      OptionExact(code, more.value, seen + p, pairs, s.no, t.no);
      Regroup(seen, p, q);
    }
  }

  /** A tree as `same_statements` is used with: different statements, operands before their uses. */
  ghost predicate Tree(code: Table, b: Block) {
    BlockIds(b) <= code.Keys && Distinct(b) && BlockScoped(code, BlockIds(b), b, {})
  }

  /** The second tree is the first with its statements renumbered; operands outside are shared. */
  ghost predicate Renumbered(code: Table, b: Block, c: Block) {
    BlockCovered(b, c) && AllCorrespond(code, BlockPairs(b, c), BlockPairs(b, c))
  }

  lemma SameExactly(code: Table, b: Block, c: Block)
    requires Tree(code, b) && BlockIds(c) <= code.Keys && BlockIds(b) !! BlockIds(c)
    ensures BlockCompared(code, map[], b, c).Some? <==> Renumbered(code, b, c)
  {
    UncoveredDiffers(code, map[], b, c);
    if BlockCovered(b, c) {
      var none: Ids := map[];
      assert none.Keys == {};
      BlockExact(code, none, none, BlockPairs(b, c), b, c);
    }
  }

  /** If neither tree has a branch that the other has not, the statements at the same positions are paired
      one to one, whichever tree comes first. */
  lemma {:induction false} PairsInverse(b: Block, c: Block, x: Id)
    requires BlockCovered(b, c) && BlockCovered(c, b) && Distinct(b) && Distinct(c) && x in BlockIds(b)
    ensures BlockPairs(b, c)[x] in BlockIds(c) && BlockPairs(c, b)[BlockPairs(b, c)[x]] == x
    decreases b
  {
    if x in BlockIds(b.rest) {
      PairsInverse(b.rest, c.rest, x);
    } else {
      ShapePairsInverse(b.first, c.first, x);
    }
  }

  lemma {:induction false} ShapePairsInverse(s: Shape, t: Shape, x: Id)
    requires ShapeCovered(s, t) && ShapeCovered(t, s) && ShapeDistinct(s) && ShapeDistinct(t) && x in ShapeIds(s)
    ensures ShapePairs(s, t)[x] in ShapeIds(t) && ShapePairs(t, s)[ShapePairs(s, t)[x]] == x
    decreases s
  {
    match s
    case Leaf(_) =>
    case Branch(_, yes, no) =>
      if x in OptionIds(no) {
        PairsInverse(no.value, t.no.value, x);
      } else if x in OptionIds(yes) {
        PairsInverse(yes.value, t.yes.value, x);
      }
    case Body(_, body) =>
      if x in BlockIds(body) {
        PairsInverse(body, t.body, x);
      }
  }

  /** `same_statements` without a map of numbers. */
  method SameStatements(code: Table, b: Block, c: Block) returns (r: bool)
    requires Tree(code, b) && BlockIds(c) <= code.Keys && BlockIds(b) !! BlockIds(c)
    ensures r <==> Renumbered(code, b, c)
  {
    var comparator := new IRNodeComparator();
    comparator.VisitBlock(code, b, c);
    r := comparator.same;
    SameExactly(code, b, c);
  }

  /** A branch that only the second tree has goes unnoticed, so the relation is not symmetric. */
  lemma ExtraBranchUnnoticed(code: Table, a: Id, b: Id, d: Id)
    requires a in code && b in code && code[a] == code[b] && code[a].operands == []
    ensures var one := Cons(Branch(a, None, None), End);
            var two := Cons(Branch(b, Some(Cons(Leaf(d), End)), None), End);
            Renumbered(code, one, two) && !Renumbered(code, two, one)
  {
    var one := Cons(Branch(a, None, None), End);
    var two := Cons(Branch(b, Some(Cons(Leaf(d), End)), None), End);
    assert OptionCovered(one.first.yes, two.first.yes) && OptionCovered(one.first.no, two.first.no);
    assert ShapeCovered(one.first, two.first) && BlockCovered(one.rest, two.rest);
    assert BlockCovered(one, two);
    assert ShapePairs(one.first, two.first) == map[a := b];
    assert BlockPairs(one, two) == map[a := b];
    assert Corresponds(code, map[a := b], a, b);
    assert !OptionCovered(two.first.yes, one.first.yes) && !ShapeCovered(two.first, one.first);
  }
}

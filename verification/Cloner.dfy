/** The clone of a statement tree: a raw copy, whose operands are then redirected in two traversals. */
module Cloner {
  import opened Options
  import opened Comparator

  /******* The raw copy *******/

  /** The tree with new statements; `copies` says which. */
  function CopyShape(s: Shape, copies: Ids): (r: Shape)
    requires ShapeIds(s) <= copies.Keys
    ensures ShapeCovered(s, r)
    decreases s
  {
    match s
    case Leaf(a) => Leaf(copies[a])
    case Branch(a, yes, no) => Branch(copies[a], CopyOption(yes, copies), CopyOption(no, copies))
    case Body(a, body) => Body(copies[a], CopyBlock(body, copies))
  }

  function CopyOption(b: Option<Block>, copies: Ids): (r: Option<Block>)
    requires OptionIds(b) <= copies.Keys
    ensures OptionCovered(b, r) && (b.None? <==> r.None?)
    decreases b
  {
    match b
    case None => None
    case Some(c) => Some(CopyBlock(c, copies))
  }

  function CopyBlock(b: Block, copies: Ids): (r: Block)
    requires BlockIds(b) <= copies.Keys
    ensures BlockCovered(b, r)
    decreases b
  {
    match b
    case End => End
    case Cons(s, rest) => Cons(CopyShape(s, copies), CopyBlock(rest, copies))
  }

  /** Statements at the same positions are those that `copies` pairs. */
  lemma {:induction false} CopyPairs(b: Block, copies: Ids)
    requires BlockIds(b) <= copies.Keys
    ensures Part(BlockPairs(b, CopyBlock(b, copies)), copies)
    ensures BlockIds(CopyBlock(b, copies)) <= copies.Values
    decreases b
  {
    if b.Cons? {
      ShapeCopyPairs(b.first, copies);
      CopyPairs(b.rest, copies);
      PartJoin(ShapePairs(b.first, CopyShape(b.first, copies)), BlockPairs(b.rest, CopyBlock(b.rest, copies)), copies);
    }
  }

  lemma {:induction false} ShapeCopyPairs(s: Shape, copies: Ids)
    requires ShapeIds(s) <= copies.Keys
    ensures Part(ShapePairs(s, CopyShape(s, copies)), copies)
    ensures ShapeIds(CopyShape(s, copies)) <= copies.Values
    decreases s
  {
    match s
    case Leaf(_) =>
    case Branch(_, yes, no) =>
      OptionCopyPairs(yes, copies);
      OptionCopyPairs(no, copies);
    case Body(_, body) => CopyPairs(body, copies);
  }

  lemma {:induction false} OptionCopyPairs(b: Option<Block>, copies: Ids)
    requires OptionIds(b) <= copies.Keys
    ensures Part(OptionPairs(b, CopyOption(b, copies)), copies)
    ensures OptionIds(CopyOption(b, copies)) <= copies.Values
    decreases b
  {
    if b.Some? {
      CopyPairs(b.value, copies);
    }
  }

  /******* The two traversals *******/

  function Redirected(operandMap: Ids, x: Option<Id>): Option<Id> {
    if x.Some? && x.value in operandMap then Some(operandMap[x.value]) else x
  }

  function RedirectedAll(operandMap: Ids, xs: seq<Option<Id>>): (r: seq<Option<Id>>)
    ensures |r| == |xs| && forall i | 0 <= i < |xs| :: r[i] == Redirected(operandMap, xs[i])
  {
    seq(|xs|, i requires 0 <= i < |xs| => Redirected(operandMap, xs[i]))
  }

  /** The table after the statements of `pairs` got the redirected operands of their originals. */
  ghost predicate Replaced(was: Table, now: Table, operandMap: Ids, pairs: Ids) {
    && was.Keys == now.Keys
    && (forall id | id in was && id !in pairs.Values :: now[id] == was[id])
    && (forall a | a in pairs :: ReplacedAt(was, now, operandMap, a, pairs[a]))
  }

  ghost predicate ReplacedAt(was: Table, now: Table, operandMap: Ids, a: Id, b: Id) {
    a in was && b in was && b in now && now[b] == was[b].(operands := RedirectedAll(operandMap, was[a].operands))
  }

  ghost predicate Injective(m: Ids) {
    forall a, b | a in m && b in m && m[a] == m[b] :: a == b
  }

  /** The originals are there, and their copies are other statements with as many operands. */
  ghost predicate Copies(code: Table, pairs: Ids) {
    && pairs.Keys + pairs.Values <= code.Keys && pairs.Keys !! pairs.Values && Injective(pairs)
    && forall a | a in pairs :: |code[a].operands| == |code[pairs[a]].operands|
  }

  lemma RegroupBranches(was: Ids, own: Ids, p: Ids, q: Ids)
    ensures was + own + p + q == was + (own + (p + q))
  {
    Regroup(was + own, p, q);
    Regroup(was, own, p + q);
  }

  /** The parts of injective pairs have different copies. */
  lemma CopiesSplit(code: Table, p: Ids, q: Ids)
    requires Copies(code, p + q) && p.Keys !! q.Keys
    ensures Copies(code, p) && Copies(code, q) && p.Values !! q.Values && p.Keys !! q.Values && q.Keys !! p.Values
  {
    var both := p + q;
    assert forall a | a in p :: both[a] == p[a] && both[a] in both.Values;
    assert forall a | a in q :: both[a] == q[a] && both[a] in both.Values;
  }

  /** Replacing in one part and then in the other. */
  lemma ReplacedBoth(was: Table, mid: Table, now: Table, operandMap: Ids, p: Ids, q: Ids)
    requires Copies(was, p + q) && p.Keys !! q.Keys && Replaced(was, mid, operandMap, p)
             && Replaced(mid, now, operandMap, q)
    ensures Replaced(was, now, operandMap, p + q)
  {
    CopiesSplit(was, p, q);
    var both := p + q;
    forall a | a in both
      ensures ReplacedAt(was, now, operandMap, a, both[a])
    {
      PairReplaced(was, mid, now, operandMap, p, q, a);
    }
    OthersKept(was, mid, now, operandMap, p, q);
  }

  lemma PairReplaced(was: Table, mid: Table, now: Table, operandMap: Ids, p: Ids, q: Ids, a: Id)
    requires p.Values !! q.Values && p.Keys !! q.Values && q.Keys !! p.Values && a in p + q
    requires Replaced(was, mid, operandMap, p) && Replaced(mid, now, operandMap, q)
    ensures ReplacedAt(was, now, operandMap, a, (p + q)[a])
  {
    if a in q {
      assert ReplacedAt(mid, now, operandMap, a, q[a]);
    } else {
      assert ReplacedAt(was, mid, operandMap, a, p[a]);
    }
  }

  lemma OthersKept(was: Table, mid: Table, now: Table, operandMap: Ids, p: Ids, q: Ids)
    requires p.Keys !! q.Keys && Replaced(was, mid, operandMap, p) && Replaced(mid, now, operandMap, q)
    ensures forall id | id in was && id !in (p + q).Values :: now[id] == was[id]
  {
    forall id | id in was && id !in (p + q).Values
      ensures now[id] == was[id]
    {
      ValuesBoth(p, q, id);
    }
  }

  lemma ValuesBoth(p: Ids, q: Ids, id: Id)
    requires p.Keys !! q.Keys && id !in (p + q).Values
    ensures id !in p.Values && id !in q.Values
  {
    assert forall a | a in p :: (p + q)[a] == p[a] && (p + q)[a] in (p + q).Values;
    assert forall a | a in q :: (p + q)[a] == q[a] && (p + q)[a] in (p + q).Values;
  }

  lemma ReplacedOne(was: Table, now: Table, operandMap: Ids, a: Id, b: Id)
    requires a in was && b in was && now == was[b := was[b].(operands := RedirectedAll(operandMap, was[a].operands))]
    ensures Replaced(was, now, operandMap, map[a := b])
  {
    var own: Ids := map[a := b];
    assert own.Values == {b} by {
      assert own[a] == b;
    }
    assert ReplacedAt(was, now, operandMap, a, b);
  }

  /** Replacing elsewhere leaves the copies in `q` to be replaced. */
  lemma CopiesKept(was: Table, mid: Table, operandMap: Ids, p: Ids, q: Ids)
    requires Copies(was, p + q) && p.Keys !! q.Keys && Replaced(was, mid, operandMap, p)
    ensures Copies(mid, q)
  {
    CopiesSplit(was, p, q);
  }

  class IRCloner {
    var code: Table
    var operandMap: Ids

    constructor (code: Table)
      ensures this.code == code && operandMap == map[]
    {
      this.code, operandMap := code, map[];
    }

    /** First traversal: which statement of the copy stands for which. */
    method RegisterBlock(b: Block, c: Block)
      requires BlockCovered(b, c)
      modifies `operandMap
      ensures operandMap == old(operandMap) + BlockPairs(b, c)
      decreases b, 2
    {
      if b.Cons? {
        RegisterShape(b.first, c.first);
        RegisterBlock(b.rest, c.rest);
        Regroup(old(operandMap), ShapePairs(b.first, c.first), BlockPairs(b.rest, c.rest));
      }
    }

    method RegisterShape(s: Shape, t: Shape)
      requires ShapeCovered(s, t)
      modifies `operandMap
      ensures operandMap == old(operandMap) + ShapePairs(s, t)
      decreases s, 1
    {
      ghost var was, own: Ids := operandMap, map[s.id := t.id];
      operandMap := operandMap[s.id := t.id];
      assert operandMap == was + own;
      match s {
        case Leaf(_) =>
        case Branch(_, yes, no) =>
          RegisterOption(yes, t.yes);
          RegisterOption(no, t.no);
          RegroupBranches(was, own, OptionPairs(yes, t.yes), OptionPairs(no, t.no));
        case Body(_, body) =>
          RegisterBlock(body, t.body);
          Regroup(was, own, BlockPairs(body, t.body));
      }
    }

    method RegisterOption(b: Option<Block>, c: Option<Block>)
      requires OptionCovered(b, c)
      modifies `operandMap
      ensures operandMap == old(operandMap) + OptionPairs(b, c)
      decreases b, 3
    {
      if b.Some? {
        RegisterBlock(b.value, c.value);
      }
    }

    /** The operands of one statement of the copy. */
    method ReplaceOperands(a: Id, b: Id)
      requires a in code && b in code && a != b && |code[a].operands| == |code[b].operands|
      modifies `code
      ensures code == old(code)[b := old(code)[b].(operands := RedirectedAll(operandMap, old(code)[a].operands))]
    {
      var i, n := 0, |code[a].operands|;
      while i < n
        invariant 0 <= i <= n && b in code && |code[b].operands| == n
                  && code[b] == old(code)[b].(operands := code[b].operands)
        invariant code == old(code)[b := code[b]]
        invariant forall j | 0 <= j < i :: code[b].operands[j] == Redirected(operandMap, old(code)[a].operands[j])
      {
        var x := code[a].operands[i];
        if x.None? || x.value !in operandMap {
          code := code[b := code[b].(operands := code[b].operands[i := x])];
        } else {
          code := code[b := code[b].(operands := code[b].operands[i := Some(operandMap[x.value])])];
        }
        i := i + 1;
      }
      assert code[b].operands == RedirectedAll(operandMap, old(code)[a].operands);
    }

    /** Second traversal: the copy uses its own statements where the original uses its own. */
    method ReplaceBlock(b: Block, c: Block)
      requires Distinct(b) && BlockCovered(b, c) && Copies(code, BlockPairs(b, c))
      modifies `code
      ensures Replaced(old(code), code, operandMap, BlockPairs(b, c))
      decreases b, 2
    {
      if b.Cons? {
        ghost var p, q, was := ShapePairs(b.first, c.first), BlockPairs(b.rest, c.rest), code;
        CopiesSplit(code, p, q);
        ReplaceShape(b.first, c.first);
        CopiesKept(was, code, operandMap, p, q);
        ghost var mid := code;
        ReplaceBlock(b.rest, c.rest);
        ReplacedBoth(was, mid, code, operandMap, p, q);
      }
    }

    method ReplaceShape(s: Shape, t: Shape)
      requires ShapeDistinct(s) && ShapeCovered(s, t) && Copies(code, ShapePairs(s, t))
      modifies `code
      ensures Replaced(old(code), code, operandMap, ShapePairs(s, t))
      decreases s, 1
    {
      ghost var own: Ids, q: Ids, was := map[s.id := t.id], RestPairs(s, t), code;
      assert own.Keys == {s.id} && own[s.id] == t.id;
      CopiesSplit(code, own, q);
      ReplaceOperands(s.id, t.id);
      ghost var mid := code;
      ReplacedOne(was, mid, operandMap, s.id, t.id);
      CopiesKept(was, code, operandMap, own, q);
      ReplaceNested(s, t);
      ReplacedBoth(was, mid, code, operandMap, own, q);
    }

    method ReplaceNested(s: Shape, t: Shape)
      requires ShapeDistinct(s) && ShapeCovered(s, t) && Copies(code, RestPairs(s, t))
      modifies `code
      ensures Replaced(old(code), code, operandMap, RestPairs(s, t))
      decreases s, 0, 1
    {
      match s {
        case Leaf(_) =>
        case Branch(_, _, _) => ReplaceBranches(s, t);
        case Body(_, body) => ReplaceBlock(body, t.body);
      }
    }

    method ReplaceBranches(s: Shape, t: Shape)
      requires s.Branch? && ShapeDistinct(s) && ShapeCovered(s, t) && Copies(code, RestPairs(s, t))
      modifies `code
      ensures Replaced(old(code), code, operandMap, RestPairs(s, t))
      decreases s, 0, 0
    {
      ghost var p, q, was := OptionPairs(s.yes, t.yes), OptionPairs(s.no, t.no), code;
      CopiesSplit(code, p, q);
      ReplaceOption(s.yes, t.yes);
      CopiesKept(was, code, operandMap, p, q);
      ghost var mid := code;
      ReplaceOption(s.no, t.no);
      ReplacedBoth(was, mid, code, operandMap, p, q);
    }

    method ReplaceOption(b: Option<Block>, c: Option<Block>)
      requires (b.Some? ==> Distinct(b.value)) && OptionCovered(b, c) && Copies(code, OptionPairs(b, c))
      modifies `code
      ensures Replaced(old(code), code, operandMap, OptionPairs(b, c))
      decreases b, 3
    {
      if b.Some? {
        ReplaceBlock(b.value, c.value);
      }
    }
  }

  /** The pairs inside the blocks of a statement. */
  ghost function RestPairs(s: Shape, t: Shape): (r: Ids)
    requires ShapeCovered(s, t)
    ensures ShapePairs(s, t) == map[s.id := t.id] + r
    ensures r.Keys == ShapeIds(s) - {s.id} || s.id in r.Keys
    ensures ShapeDistinct(s) ==> s.id !in r
  {
    match s
    case Leaf(_) => map[]
    case Branch(_, yes, no) => OptionPairs(yes, t.yes) + OptionPairs(no, t.no)
    case Body(_, body) => BlockPairs(body, t.body)
  }

  /******* The clone *******/

  /** The raw copy has the operands of the original. */
  ghost predicate RawCopy(was: Table, now: Table, copies: Ids) {
    && now.Keys == was.Keys + copies.Values
    && (forall id | id in was :: now[id] == was[id])
    && (forall a | a in copies :: a in was && copies[a] in now && now[copies[a]] == was[a])
  }

  /** The clone is the original with its statements renumbered by a bijection onto new statements; operands
      from outside are shared, and the original is unchanged. */
  ghost predicate Cloned(was: Table, now: Table, b: Block, c: Block, copies: Ids) {
    && BlockIds(b) == copies.Keys && c == CopyBlock(b, copies) && BlockIds(c) == copies.Values
    && Injective(copies) && copies.Values !! was.Keys && now.Keys == was.Keys + copies.Values
    && (forall id | id in was :: now[id] == was[id])
    && (forall a | a in copies :: CopyAt(was, now, copies, a))
  }

  ghost predicate CopyAt(was: Table, now: Table, copies: Ids, a: Id) {
    && a in was && a in copies && copies[a] in now
    && now[copies[a]] == Instr(was[a].typ, was[a].fields, RedirectedAll(copies, was[a].operands))
  }

  /** A clone and its original are renumberings of each other, and the comparison finds them the same. */
  lemma ClonedSame(was: Table, now: Table, b: Block, c: Block, copies: Ids)
    requires Tree(was, b) && Cloned(was, now, b, c, copies)
    ensures BlockCovered(b, c) && BlockCovered(c, b) && BlockPairs(b, c) == copies
    ensures Renumbered(now, b, c) && Tree(now, b) && BlockIds(b) !! BlockIds(c) && BlockIds(c) <= now.Keys
    ensures BlockCompared(now, map[], b, c).Some?
  {
    CopyPairs(b, copies);
    CopyCovers(b, copies);
    assert BlockPairs(b, c) == copies;
    forall a | a in copies
      ensures Corresponds(now, copies, a, copies[a])
    {
      assert CopyAt(was, now, copies, a);
    }
    TreeKept(was, now, b, BlockIds(b), {});
    SameExactly(now, b, c);
  }

  lemma {:induction false} TreeKept(was: Table, now: Table, b: Block, all: set<Id>, done: set<Id>)
    requires BlockScoped(was, all, b, done) && was.Keys <= now.Keys && forall id | id in was :: now[id] == was[id]
    ensures BlockScoped(now, all, b, done)
    decreases b
  {
    if b.Cons? {
      ShapeKept(was, now, b.first, all, done);
      TreeKept(was, now, b.rest, all, done + ShapeIds(b.first));
    }
  }

  lemma {:induction false} ShapeKept(was: Table, now: Table, s: Shape, all: set<Id>, done: set<Id>)
    requires ShapeScoped(was, all, s, done) && was.Keys <= now.Keys && forall id | id in was :: now[id] == was[id]
    ensures ShapeScoped(now, all, s, done)
    decreases s
  {
    match s
    case Leaf(_) =>
    case Branch(id, yes, no) =>
      if yes.Some? {
        TreeKept(was, now, yes.value, all, done + {id});
      }
      if no.Some? {
        TreeKept(was, now, no.value, all, done + {id} + OptionIds(yes));
      }
    case Body(id, body) => TreeKept(was, now, body, all, done + {id});
  }

  /** The copy has no branch that the original has not. */
  lemma {:induction false} CopyCovers(b: Block, copies: Ids)
    requires BlockIds(b) <= copies.Keys
    ensures BlockCovered(CopyBlock(b, copies), b)
    decreases b
  {
    if b.Cons? {
      ShapeCopyCovers(b.first, copies);
      CopyCovers(b.rest, copies);
    }
  }

  lemma {:induction false} ShapeCopyCovers(s: Shape, copies: Ids)
    requires ShapeIds(s) <= copies.Keys
    ensures ShapeCovered(CopyShape(s, copies), s)
    decreases s
  {
    match s
    case Leaf(_) =>
    case Branch(_, yes, no) =>
      if yes.Some? {
        CopyCovers(yes.value, copies);
      }
      if no.Some? {
        CopyCovers(no.value, copies);
      }
    case Body(_, body) => CopyCovers(body, copies);
  }

  /** The copies of the statements in `ids`. */
  function Image(copies: Ids, ids: set<Id>): set<Id> {
    set a | a in ids && a in copies :: copies[a]
  }

  lemma ImageUnion(copies: Ids, p: set<Id>, q: set<Id>)
    ensures Image(copies, p + q) == Image(copies, p) + Image(copies, q)
  {
  }

  /** The statements of the copy are exactly the new ones. */
  lemma {:induction false} CopyIds(b: Block, copies: Ids)
    requires BlockIds(b) <= copies.Keys
    ensures BlockIds(CopyBlock(b, copies)) == Image(copies, BlockIds(b))
    decreases b, 0
  {
    if b.Cons? {
      ShapeCopyIds(b.first, copies);
      CopyIds(b.rest, copies);
      ImageUnion(copies, ShapeIds(b.first), BlockIds(b.rest));
    }
  }

  lemma {:induction false} OptionCopyIds(b: Option<Block>, copies: Ids)
    requires OptionIds(b) <= copies.Keys
    ensures OptionIds(CopyOption(b, copies)) == Image(copies, OptionIds(b))
    decreases b, 0
  {
    if b.Some? {
      CopyIds(b.value, copies);
    }
  }

  lemma {:induction false} ShapeCopyIds(s: Shape, copies: Ids)
    requires ShapeIds(s) <= copies.Keys
    ensures ShapeIds(CopyShape(s, copies)) == Image(copies, ShapeIds(s))
    decreases s, 0
  {
    assert Image(copies, {s.id}) == {copies[s.id]};
    match s
    case Leaf(_) =>
    case Branch(id, yes, no) =>
      OptionCopyIds(yes, copies);
      OptionCopyIds(no, copies);
      ImageUnion(copies, {id}, OptionIds(yes));
      ImageUnion(copies, {id} + OptionIds(yes), OptionIds(no));
    case Body(id, body) =>
      CopyIds(body, copies);
      ImageUnion(copies, {id}, BlockIds(body));
  }

  /** `clone`, given the table after the raw copy; the comparison of original and clone succeeds. */
  method Clone(was: Table, raw: Table, b: Block, copies: Ids) returns (now: Table, c: Block)
    requires Tree(was, b) && copies.Keys == BlockIds(b) && Injective(copies) && copies.Values !! was.Keys
    requires RawCopy(was, raw, copies)
    ensures Cloned(was, now, b, c, copies) && Renumbered(now, b, c) && BlockCovered(c, b)
    ensures BlockIds(c) <= now.Keys && BlockIds(b) !! BlockIds(c) && Tree(now, b)
    ensures BlockCompared(now, map[], b, c).Some?
  {
    c := CopyBlock(b, copies);
    CopyPairs(b, copies);
    assert BlockPairs(b, c) == copies;
    assert Copies(raw, copies);
    now := Redirect(raw, b, c);
    RedirectedCopy(was, raw, now, b, c, copies);
    ClonedSame(was, now, b, c, copies);
  }

  /** Comparing a tree with its clone returns true. */
  method CloneCompares(was: Table, raw: Table, b: Block, copies: Ids) returns (same: bool)
    requires Tree(was, b) && copies.Keys == BlockIds(b) && Injective(copies) && copies.Values !! was.Keys
    requires RawCopy(was, raw, copies)
    ensures same
  {
    var now, c := Clone(was, raw, b, copies);
    same := SameStatements(now, b, c);
  }

  /** Both traversals. */
  method Redirect(raw: Table, b: Block, c: Block) returns (now: Table)
    requires Distinct(b) && BlockCovered(b, c) && Copies(raw, BlockPairs(b, c))
    ensures Replaced(raw, now, BlockPairs(b, c), BlockPairs(b, c))
  {
    var cloner := new IRCloner(raw);
    cloner.RegisterBlock(b, c);
    assert cloner.operandMap == BlockPairs(b, c);
    cloner.ReplaceBlock(b, c);
    now := cloner.code;
  }

  lemma RedirectedCopy(was: Table, raw: Table, now: Table, b: Block, c: Block, copies: Ids)
    requires BlockIds(b) == copies.Keys && c == CopyBlock(b, copies) && Injective(copies) && copies.Values !! was.Keys
    requires RawCopy(was, raw, copies) && Replaced(raw, now, copies, copies)
    ensures Cloned(was, now, b, c, copies)
  {
    CopyIds(b, copies);
    assert Image(copies, copies.Keys) == copies.Values;
    forall a | a in copies
      ensures CopyAt(was, now, copies, a)
    {
      assert ReplacedAt(raw, now, copies, a, copies[a]);
      assert copies[a] in copies.Values;
    }
  }
}

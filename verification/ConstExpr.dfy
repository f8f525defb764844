/** Statements whose value, and whether they run, depends on some seed statements only. */
module ConstExpr {
  import opened Ssa
  import opened StoreForwarding

  /** Unary, binary and ternary operations. */
  predicate Arithmetic(s: Stmt) {
    s.Op? && s.pure && 1 <= |s.operands| <= 3
  }

  /******* The pass *******/

  function InferStmt(seed: Id -> bool, s: Stmt, consts: set<Id>): set<Id>
    decreases s
  {
    if s.If? then (if s.cond in consts then InferBlock(seed, s.no, InferBlock(seed, s.yes, consts)) else consts)
    else if seed(s.id) || (Arithmetic(s) && Operands(s) <= consts) then consts + {s.id}
    else consts
  }

  function InferBlock(seed: Id -> bool, b: Block, consts: set<Id>): set<Id>
    decreases b
  {
    match b
    case End => consts
    case Cons(s, rest) => InferBlock(seed, rest, InferStmt(seed, s, consts))
  }

  class ConstExprPropagation {
    const isConstSeed: Id -> bool
    var constStmts: set<Id>

    constructor (isConstSeed: Id -> bool)
      ensures this.isConstSeed == isConstSeed && constStmts == {}
    {
      this.isConstSeed, constStmts := isConstSeed, {};
    }

    method GenericTest(s: Stmt) returns (r: bool)
      modifies this
      ensures r == isConstSeed(s.id)
      ensures constStmts == if r then old(constStmts) + {s.id} else old(constStmts)
    {
      r := isConstSeed(s.id);
      if r {
        constStmts := constStmts + {s.id};
      }
    }

    method VisitArithmetic(s: Stmt)
      requires Arithmetic(s)
      modifies this
      ensures constStmts == InferStmt(isConstSeed, s, old(constStmts))
    {
      var tested := GenericTest(s);
      if tested {
        return;
      }
      if Operands(s) <= constStmts {
        constStmts := constStmts + {s.id};
      }
    }

    method VisitStmt(s: Stmt)
      modifies this
      ensures constStmts == InferStmt(isConstSeed, s, old(constStmts))
      decreases s
    {
      if s.If? {
        if s.cond in constStmts {
          VisitBlock(s.yes);
          VisitBlock(s.no);
        }
      } else if Arithmetic(s) {
        VisitArithmetic(s);
      } else {
        var tested := GenericTest(s);
      }
    }

    method VisitBlock(b: Block)
      modifies this
      ensures constStmts == InferBlock(isConstSeed, b, old(constStmts))
      decreases b
    {
      var c := b;
      while c.Cons?
        invariant InferBlock(isConstSeed, c, constStmts) == InferBlock(isConstSeed, b, old(constStmts))
        invariant c == b || c < b
        decreases c
      {
        VisitStmt(c.first);
        c := c.rest;
      }
    }
  }

  /******* Two runs *******/

  /** Statement `a` ran in both or in neither, and has the same value. */
  ghost predicate AgreeAt(s: State, t: State, a: Id) {
    (a in s.env <==> a in t.env) && Val(s.env, a) == Val(t.env, a)
  }

  ghost predicate Agree(ids: set<Id>, s: State, t: State) {
    forall a | a in ids :: AgreeAt(s, t, a)
  }

  /** Seeds that ran in both have the same value. */
  ghost predicate SeedsAgree(seed: Id -> bool, ids: set<Id>, s: State, t: State) {
    forall a | a in ids && seed(a) && a in s.env && a in t.env :: Val(s.env, a) == Val(t.env, a)
  }

  ghost predicate Fell(o: Outcome) {
    o.Done? && o.exit.Fell?
  }

  /** No statement in `ids` has run. */
  ghost predicate Fresh(ids: set<Id>, s: State, t: State) {
    s.env.Keys !! ids && t.env.Keys !! ids
  }

  lemma {:induction false} InferIds(seed: Id -> bool, b: Block, consts: set<Id>)
    ensures consts <= InferBlock(seed, b, consts) <= consts + BlockIds(b)
    decreases b
  {
    if b.Cons? {
      InferStmtIds(seed, b.first, consts);
      InferIds(seed, b.rest, InferStmt(seed, b.first, consts));
    }
  }

  lemma {:induction false} InferStmtIds(seed: Id -> bool, s: Stmt, consts: set<Id>)
    ensures consts <= InferStmt(seed, s, consts) <= consts + StmtIds(s)
    decreases s
  {
    if s.If? {
      InferIds(seed, s.yes, consts);
      InferIds(seed, s.no, InferBlock(seed, s.yes, consts));
    }
  }

  /******* Which statements are inferred *******/

  /** Statement `a` is reached under conditions in `all` only, and is a seed, or an operation of one to three
      operands that are in `all`. */
  predicate Justified(seed: Id -> bool, b: Block, all: set<Id>, a: Id)
    decreases b
  {
    match b
    case End => false
    case Cons(s, rest) => StmtJustified(seed, s, all, a) || Justified(seed, rest, all, a)
  }

  predicate StmtJustified(seed: Id -> bool, s: Stmt, all: set<Id>, a: Id)
    decreases s
  {
    match s
    case If(_, c, yes, no) => c in all && (Justified(seed, yes, all, a) || Justified(seed, no, all, a))
    case Op(id, pure, ops) => id == a && (seed(a) || (pure && 1 <= |ops| <= 3 && forall o | o in ops :: o in all))
    case _ => s.id == a && seed(a)
  }

  lemma {:induction false} JustifiedIds(seed: Id -> bool, b: Block, all: set<Id>, a: Id)
    requires Justified(seed, b, all, a)
    ensures a in BlockIds(b)
    decreases b
  {
    var s := b.first;
    if StmtJustified(seed, s, all, a) {
      StmtJustifiedIds(seed, s, all, a);
    } else {
      JustifiedIds(seed, b.rest, all, a);
    }
  }

  lemma {:induction false} StmtJustifiedIds(seed: Id -> bool, s: Stmt, all: set<Id>, a: Id)
    requires StmtJustified(seed, s, all, a)
    ensures a in StmtIds(s)
    decreases s
  {
    if s.If? {
      if Justified(seed, s.yes, all, a) {
        JustifiedIds(seed, s.yes, all, a);
      } else {
        JustifiedIds(seed, s.no, all, a);
      }
    }
  }

  ghost predicate SameOn(ids: set<Id>, p: set<Id>, q: set<Id>) {
    forall x | x in ids :: x in p <==> x in q
  }

  /** The inferred statements are exactly those that the inferred statements justify. */
  lemma InferredExactly(seed: Id -> bool, b: Block, a: Id)
    requires WellScoped(b, {})
    ensures var r := InferBlock(seed, b, {}); a in r <==> Justified(seed, b, r, a)
  {
    var r := InferBlock(seed, b, {});
    InferIds(seed, b, {});
    if a in BlockIds(b) {
      BlockInferred(seed, b, {}, {}, r, a);
    } else if Justified(seed, b, r, a) {
      JustifiedIds(seed, b, r, a);
    }
  }

  lemma {:induction false} BlockInferred(seed: Id -> bool, b: Block, scope: set<Id>, consts: set<Id>, all: set<Id>,
                                         a: Id)
    requires WellScoped(b, scope) && scope !! BlockIds(b) && consts !! BlockIds(b) && a in BlockIds(b)
    requires SameOn(scope + BlockIds(b), all, InferBlock(seed, b, consts))
    ensures a in all <==> Justified(seed, b, all, a)
    decreases b
  {
    var s, rest := b.first, b.rest;
    var now := InferStmt(seed, s, consts);
    InferStmtIds(seed, s, consts);
    InferIds(seed, rest, now);
    if a in StmtIds(s) {
      StmtInferred(seed, s, scope, consts, all, a);
      if Justified(seed, rest, all, a) {
        JustifiedIds(seed, rest, all, a);
      }
    } else {
      DefinedIds(s);
      BlockInferred(seed, rest, scope + Defines(s), now, all, a);
      if StmtJustified(seed, s, all, a) {
        StmtJustifiedIds(seed, s, all, a);
      }
    }
  }

  lemma DefinedIds(s: Stmt)
    ensures Defines(s) <= StmtIds(s)
  {
  }

  lemma {:induction false} StmtInferred(seed: Id -> bool, s: Stmt, scope: set<Id>, consts: set<Id>, all: set<Id>, a: Id)
    requires StmtScoped(s, scope) && scope !! StmtIds(s) && consts !! StmtIds(s) && a in StmtIds(s)
    requires SameOn(scope + StmtIds(s), all, InferStmt(seed, s, consts))
    ensures a in all <==> StmtJustified(seed, s, all, a)
    decreases s
  {
    InferStmtIds(seed, s, consts);
    match s
    case If(_, c, yes, no) =>
      if c in consts {
        BranchesInferred(seed, s, scope, consts, all, a);
      }
    case Op(id, pure, ops) =>
      assert forall o | o in ops :: o in Operands(s) && (o in all <==> o in consts);
      assert Operands(s) <= consts <==> forall o | o in ops :: o in consts;
    case _ =>
  }

  lemma {:induction false} BranchesInferred(seed: Id -> bool, s: Stmt, scope: set<Id>, consts: set<Id>, all: set<Id>,
                                            a: Id)
    requires s.If? && s.cond in consts && s.cond in all
    requires StmtScoped(s, scope) && scope !! StmtIds(s) && consts !! StmtIds(s) && a in StmtIds(s)
    requires SameOn(scope + StmtIds(s), all, InferStmt(seed, s, consts))
    ensures a in all <==> StmtJustified(seed, s, all, a)
    decreases s, 0
  {
    var mid := InferBlock(seed, s.yes, consts);
    InferIds(seed, s.yes, consts);
    InferIds(seed, s.no, mid);
    if a in BlockIds(s.yes) {
      BlockInferred(seed, s.yes, scope, consts, all, a);
      if Justified(seed, s.no, all, a) {
        JustifiedIds(seed, s.no, all, a);
      }
    } else {
      if Justified(seed, s.yes, all, a) {
        JustifiedIds(seed, s.yes, all, a);
      }
      if a in BlockIds(s.no) {
        BlockInferred(seed, s.no, scope, mid, all, a);
      } else if Justified(seed, s.no, all, a) {
        JustifiedIds(seed, s.no, all, a);
      }
    }
  }

  /** Statements outside `ids` are as before in both runs. */
  lemma AgreeFrame(consts: set<Id>, ids: set<Id>, x: Id, s: State, t: State, s1: State, t1: State)
    requires Agree(consts, s, t) && consts !! ids && Frame(ids, x, false, s, s1) && Frame(ids, x, false, t, t1)
    ensures Agree(consts, s1, t1)
  {
    forall a | a in consts
      ensures AgreeAt(s1, t1, a)
    {
      assert AgreeAt(s, t, a);
    }
  }

  lemma AgreeUnrun(consts: set<Id>, ids: set<Id>, all: set<Id>, s: State, t: State)
    requires Agree(consts, s, t) && Fresh(ids, s, t) && all <= consts + ids
    ensures Agree(all, s, t)
  {
    forall a | a in all
      ensures AgreeAt(s, t, a)
    {
      assert a in consts ==> AgreeAt(s, t, a);
    }
  }

  lemma FreshFrame(ids: set<Id>, ran: set<Id>, x: Id, s: State, t: State, s1: State, t1: State)
    requires Fresh(ids, s, t) && ids !! ran && Frame(ran, x, false, s, s1) && Frame(ran, x, false, t, t1)
    ensures Fresh(ids, s1, t1)
  {
  }

  /** The arithmetic operations are the same; the world and what is done to it may differ. */
  ghost predicate SameArithmetic(m: Machine, n: Machine) {
    m.direct == n.direct && m.eval == n.eval && m.truth == n.truth
  }

  /******* Exits *******/

  /** No `continue` or `while_control` leaves the block. */
  predicate NoExit(b: Block) {
    match b
    case End => true
    case Cons(s, rest) => StmtNoExit(s) && NoExit(rest)
  }

  predicate StmtNoExit(s: Stmt) {
    match s
    case If(_, _, yes, no) => NoExit(yes) && NoExit(no)
    case Continue(_) => false
    case WhileControl(_, _) => false
    case _ => true
  }

  /** There is a way through the block that meets no `continue`. */
  predicate MayFall(b: Block) {
    match b
    case End => true
    case Cons(s, rest) => StmtMayFall(s) && MayFall(rest)
  }

  predicate StmtMayFall(s: Stmt) {
    match s
    case If(_, _, yes, no) => MayFall(yes) || MayFall(no)
    case Continue(_) => false
    case _ => true
  }

  lemma {:induction false} NeverFalls(m: Machine, b: Block, s: State, f: nat)
    requires !MayFall(b)
    ensures !Fell(ExecBlock(m, b, s, f))
    decreases b
  {
    var x := b.first;
    if !StmtMayFall(x) {
      StmtNeverFalls(m, x, s, f);
    } else if Fell(ExecStmt(m, x, s, f)) {
      NeverFalls(m, b.rest, ExecStmt(m, x, s, f).state, f);
    }
  }

  lemma {:induction false} StmtNeverFalls(m: Machine, x: Stmt, s: State, f: nat)
    requires !StmtMayFall(x)
    ensures !Fell(ExecStmt(m, x, s, f))
    decreases x
  {
    if x.If? {
      NeverFalls(m, if m.truth(Val(s.env, x.cond)) then x.yes else x.no, s, f);
    }
  }

  /** Inferred statements alone decide whether the block is left before its end. */
  predicate Steady(seed: Id -> bool, b: Block, consts: set<Id>)
    decreases b
  {
    match b
    case End => true
    case Cons(s, rest) =>
      || !MayFall(b)
      || (StmtSteady(seed, s, consts) && Steady(seed, rest, InferStmt(seed, s, consts)))
  }

  predicate StmtSteady(seed: Id -> bool, s: Stmt, consts: set<Id>)
    decreases s
  {
    match s
    case If(_, c, yes, no) =>
      if c in consts then Steady(seed, yes, consts) && Steady(seed, no, InferBlock(seed, yes, consts))
      else NoExit(yes) && NoExit(no)
    case WhileControl(_, c) => c in consts
    case _ => true
  }

  /** Nothing is inferred behind a statement that may leave the block for another reason. */
  predicate Predictable(seed: Id -> bool, b: Block, consts: set<Id>)
    decreases b
  {
    match b
    case End => true
    case Cons(s, rest) =>
      && StmtPredictable(seed, s, consts)
      && (!StmtMayFall(s)
          || (if StmtSteady(seed, s, consts) then Predictable(seed, rest, InferStmt(seed, s, consts))
              else InferBlock(seed, rest, InferStmt(seed, s, consts)) == InferStmt(seed, s, consts)))
  }

  predicate StmtPredictable(seed: Id -> bool, s: Stmt, consts: set<Id>)
    decreases s
  {
    s.If? && s.cond in consts ==>
      Predictable(seed, s.yes, consts) && Predictable(seed, s.no, InferBlock(seed, s.yes, consts))
  }

  lemma {:induction false} NoExitFalls(m: Machine, b: Block, s: State, f: nat)
    requires NoExit(b) && ExecBlock(m, b, s, f).Done?
    ensures Fell(ExecBlock(m, b, s, f))
    decreases b
  {
    if b.Cons? {
      var x := b.first;
      if x.If? {
        NoExitFalls(m, if m.truth(Val(s.env, x.cond)) then x.yes else x.no, s, f);
      } else if x.Loop? {
        LoopFalls(m, x.id, Vals(s.env, x.operands), x.body, s, f);
      }
      NoExitFalls(m, b.rest, ExecStmt(m, x, s, f).state, f);
    }
  }

  lemma {:induction false} LoopFalls(m: Machine, id: Id, vals: seq<int>, body: Block, s: State, f: nat)
    ensures ExecLoop(m, id, vals, body, s, f).Done? ==> Fell(ExecLoop(m, id, vals, body, s, f))
    decreases f
  {
    var r := m.again(id, vals, s.world);
    if r.0 && f > 0 {
      var o := ExecBlock(m, body, s.(world := r.1), f - 1);
      if o.Done? && !o.exit.Broke? {
        LoopFalls(m, id, vals, body, o.state, f - 1);
      }
    }
  }

  /** In particular, nothing leaves a block without exits. */
  lemma {:induction false} NoExitPredictable(seed: Id -> bool, b: Block, consts: set<Id>)
    requires NoExit(b)
    ensures Steady(seed, b, consts) && Predictable(seed, b, consts)
    decreases b
  {
    if b.Cons? {
      if b.first.If? && b.first.cond in consts {
        NoExitPredictable(seed, b.first.yes, consts);
        NoExitPredictable(seed, b.first.no, InferBlock(seed, b.first.yes, consts));
      }
      NoExitPredictable(seed, b.rest, InferStmt(seed, b.first, consts));
    }
  }

  /******* Agreement *******/

  /** Where two runs stand before statements `ids`. */
  ghost predicate Before(m: Machine, n: Machine, ids: set<Id>, consts: set<Id>, s: State, t: State) {
    SameArithmetic(m, n) && consts !! ids && Fresh(ids, s, t) && Agree(consts, s, t)
  }

  /** Both have finished, with the same seeds. */
  ghost predicate Finished(seed: Id -> bool, ids: set<Id>, o: Outcome, p: Outcome) {
    o.Done? && p.Done? && SeedsAgree(seed, ids, o.state, p.state)
  }

  /** Two runs that agree on the statements inferred so far, and on the seeds, agree on those inferred, and
      on whether they reach the end if the block is steady. */
  lemma {:induction false} BlockAgrees(m: Machine, n: Machine, seed: Id -> bool, b: Block, scope: set<Id>,
                                       consts: set<Id>, s: State, t: State, f: nat, g: nat)
    requires WellScoped(b, scope) && Before(m, n, BlockIds(b), consts, s, t) && Predictable(seed, b, consts)
    requires Finished(seed, BlockIds(b), ExecBlock(m, b, s, f), ExecBlock(n, b, t, g))
    ensures Agree(InferBlock(seed, b, consts), ExecBlock(m, b, s, f).state, ExecBlock(n, b, t, g).state)
    ensures Steady(seed, b, consts) ==> (Fell(ExecBlock(m, b, s, f)) <==> Fell(ExecBlock(n, b, t, g)))
    decreases b
  {
    if b.Cons? {
      var x, rest := b.first, b.rest;
      var o, p := ExecStmt(m, x, s, f), ExecStmt(n, x, t, g);
      var now := InferStmt(seed, x, consts);
      BeforeRest(m, n, seed, b, scope, consts, s, t, f, g);
      StmtAgrees(m, n, seed, x, scope, consts, s, t, f, g);
      InferStmtIds(seed, x, consts);
      InferIds(seed, rest, now);
      EndsSeldom(m, n, b, s, t, f, g);
      if Fell(o) && Fell(p) && StmtSteady(seed, x, consts) {
        BlockAgrees(m, n, seed, rest, scope + Defines(x), now, o.state, p.state, f, g);
      } else if Fell(o) || Fell(p) {
        RestKeeps(m, n, seed, rest, now, o, p, f, g);
      } else {
        AgreeUnrun(now, BlockIds(rest), InferBlock(seed, rest, now), o.state, p.state);
      }
    }
  }

  lemma EndsSeldom(m: Machine, n: Machine, b: Block, s: State, t: State, f: nat, g: nat)
    requires b.Cons?
    ensures !MayFall(b) ==> !Fell(ExecBlock(m, b, s, f)) && !Fell(ExecBlock(n, b, t, g))
    ensures !StmtMayFall(b.first) ==> !Fell(ExecStmt(m, b.first, s, f)) && !Fell(ExecStmt(n, b.first, t, g))
  {
    if !MayFall(b) {
      NeverFalls(m, b, s, f);
      NeverFalls(n, b, t, g);
    }
    if !StmtMayFall(b.first) {
      StmtNeverFalls(m, b.first, s, f);
      StmtNeverFalls(n, b.first, t, g);
    }
  }

  /** From the end of a block back to the end of its first statement. */
  lemma BeforeRest(m: Machine, n: Machine, seed: Id -> bool, b: Block, scope: set<Id>, consts: set<Id>,
                   s: State, t: State, f: nat, g: nat)
    requires b.Cons? && WellScoped(b, scope) && Before(m, n, BlockIds(b), consts, s, t)
    requires Finished(seed, BlockIds(b), ExecBlock(m, b, s, f), ExecBlock(n, b, t, g))
    ensures var o, p := ExecStmt(m, b.first, s, f), ExecStmt(n, b.first, t, g);
            && Before(m, n, StmtIds(b.first), consts, s, t) && Finished(seed, StmtIds(b.first), o, p)
            && Fresh(BlockIds(b.rest), o.state, p.state)
            && (Fell(o) && Fell(p) ==>
                  Finished(seed, BlockIds(b.rest), ExecBlock(m, b.rest, o.state, f), ExecBlock(n, b.rest, p.state, g)))
  {
    var x, rest := b.first, b.rest;
    var o, p := ExecStmt(m, x, s, f), ExecStmt(n, x, t, g);
    StmtFrame(m, x, 0, s, f);
    StmtFrame(n, x, 0, t, g);
    FreshFrame(BlockIds(rest), StmtIds(x), 0, s, t, o.state, p.state);
    if Fell(o) {
      BlockFrame(m, rest, 0, o.state, f);
    }
    if Fell(p) {
      BlockFrame(n, rest, 0, p.state, g);
    }
  }

  /** If nothing more is inferred, it does not matter which of the runs goes on. */
  lemma RestKeeps(m: Machine, n: Machine, seed: Id -> bool, rest: Block, now: set<Id>, o: Outcome, p: Outcome, f: nat,
                  g: nat)
    requires o.Done? && p.Done? && Agree(now, o.state, p.state) && now !! BlockIds(rest)
    requires Fell(o) ==> ExecBlock(m, rest, o.state, f).Done?
    requires Fell(p) ==> ExecBlock(n, rest, p.state, g).Done?
    ensures Agree(now, if Fell(o) then ExecBlock(m, rest, o.state, f).state else o.state,
                  if Fell(p) then ExecBlock(n, rest, p.state, g).state else p.state)
  {
    var s, t := o.state, p.state;
    var s1 := if Fell(o) then ExecBlock(m, rest, s, f).state else s;
    var t1 := if Fell(p) then ExecBlock(n, rest, t, g).state else t;
    if Fell(o) {
      BlockFrame(m, rest, 0, s, f);
    }
    if Fell(p) {
      BlockFrame(n, rest, 0, t, g);
    }
    AgreeFrame(now, BlockIds(rest), 0, s, t, s1, t1);
  }

  lemma {:induction false} StmtAgrees(m: Machine, n: Machine, seed: Id -> bool, x: Stmt, scope: set<Id>,
                                      consts: set<Id>, s: State, t: State, f: nat, g: nat)
    requires StmtScoped(x, scope) && Before(m, n, StmtIds(x), consts, s, t) && StmtPredictable(seed, x, consts)
    requires Finished(seed, StmtIds(x), ExecStmt(m, x, s, f), ExecStmt(n, x, t, g))
    ensures Agree(InferStmt(seed, x, consts), ExecStmt(m, x, s, f).state, ExecStmt(n, x, t, g).state)
    ensures StmtSteady(seed, x, consts) ==> (Fell(ExecStmt(m, x, s, f)) <==> Fell(ExecStmt(n, x, t, g)))
    decreases x
  {
    var s1, t1 := ExecStmt(m, x, s, f).state, ExecStmt(n, x, t, g).state;
    StmtFrame(m, x, 0, s, f);
    StmtFrame(n, x, 0, t, g);
    AgreeFrame(consts, StmtIds(x), 0, s, t, s1, t1);
    if x.If? {
      if x.cond in consts {
        IfAgrees(m, n, seed, x, scope, consts, s, t, f, g);
      } else if NoExit(x.yes) && NoExit(x.no) {
        NoExitFalls(m, if m.truth(Val(s.env, x.cond)) then x.yes else x.no, s, f);
        NoExitFalls(n, if n.truth(Val(t.env, x.cond)) then x.yes else x.no, t, g);
      }
    } else if x.Loop? {
      LoopAgrees(m, n, seed, x, scope, consts, s, t, f, g);
    } else {
      PlainAgrees(m, n, seed, x, consts, s, t, f, g);
    }
  }

  /** Statements without blocks. */
  lemma PlainAgrees(m: Machine, n: Machine, seed: Id -> bool, x: Stmt, consts: set<Id>, s: State, t: State, f: nat,
                    g: nat)
    requires !x.If? && !x.Loop? && Before(m, n, StmtIds(x), consts, s, t)
    requires Finished(seed, StmtIds(x), ExecStmt(m, x, s, f), ExecStmt(n, x, t, g))
    requires Agree(consts, ExecStmt(m, x, s, f).state, ExecStmt(n, x, t, g).state)
    ensures Agree(InferStmt(seed, x, consts), ExecStmt(m, x, s, f).state, ExecStmt(n, x, t, g).state)
    ensures StmtSteady(seed, x, consts) ==> (Fell(ExecStmt(m, x, s, f)) <==> Fell(ExecStmt(n, x, t, g)))
  {
    if x.WhileControl? {
      assert x.cond in consts ==> AgreeAt(s, t, x.cond);
    } else if Arithmetic(x) && Operands(x) <= consts {
      SameOperands(x, consts, s, t);
    }
  }

  lemma SameOperands(x: Stmt, consts: set<Id>, s: State, t: State)
    requires x.Op? && Operands(x) <= consts && Agree(consts, s, t)
    ensures Vals(s.env, x.operands) == Vals(t.env, x.operands)
  {
    forall i | 0 <= i < |x.operands|
      ensures Val(s.env, x.operands[i]) == Val(t.env, x.operands[i])
    {
      assert x.operands[i] in Operands(x);
      assert AgreeAt(s, t, x.operands[i]);
    }
  }

  lemma LoopAgrees(m: Machine, n: Machine, seed: Id -> bool, x: Stmt, scope: set<Id>, consts: set<Id>,
                   s: State, t: State, f: nat, g: nat)
    requires x.Loop? && StmtScoped(x, scope) && Before(m, n, StmtIds(x), consts, s, t)
    requires Finished(seed, StmtIds(x), ExecStmt(m, x, s, f), ExecStmt(n, x, t, g))
    requires Agree(consts, ExecStmt(m, x, s, f).state, ExecStmt(n, x, t, g).state)
    ensures Agree(InferStmt(seed, x, consts), ExecStmt(m, x, s, f).state, ExecStmt(n, x, t, g).state)
    ensures ExecStmt(m, x, s, f).exit == ExecStmt(n, x, t, g).exit
  {
    LoopFrame(m, x.id, Vals(s.env, x.operands), x.body, 0, s, f);
    LoopFrame(n, x.id, Vals(t.env, x.operands), x.body, 0, t, g);
    LoopFalls(m, x.id, Vals(s.env, x.operands), x.body, s, f);
    LoopFalls(n, x.id, Vals(t.env, x.operands), x.body, t, g);
    assert x.id !in ExecStmt(m, x, s, f).state.env && x.id !in ExecStmt(n, x, t, g).state.env;
  }

  lemma {:induction false} IfAgrees(m: Machine, n: Machine, seed: Id -> bool, x: Stmt, scope: set<Id>, consts: set<Id>,
                                    s: State, t: State, f: nat, g: nat)
    requires x.If? && x.cond in consts
    requires StmtScoped(x, scope) && Before(m, n, StmtIds(x), consts, s, t) && StmtPredictable(seed, x, consts)
    requires Finished(seed, StmtIds(x), ExecStmt(m, x, s, f), ExecStmt(n, x, t, g))
    ensures Agree(InferStmt(seed, x, consts), ExecStmt(m, x, s, f).state, ExecStmt(n, x, t, g).state)
    ensures StmtSteady(seed, x, consts) ==> (Fell(ExecStmt(m, x, s, f)) <==> Fell(ExecStmt(n, x, t, g)))
    decreases x, 0
  {
    var s1, t1 := ExecStmt(m, x, s, f).state, ExecStmt(n, x, t, g).state;
    var mid := InferBlock(seed, x.yes, consts);
    InferIds(seed, x.yes, consts);
    InferIds(seed, x.no, mid);
    assert AgreeAt(s, t, x.cond);
    if m.truth(Val(s.env, x.cond)) {
      BlockAgrees(m, n, seed, x.yes, scope, consts, s, t, f, g);
      BlockFrame(m, x.yes, 0, s, f);
      BlockFrame(n, x.yes, 0, t, g);
      FreshFrame(BlockIds(x.no), BlockIds(x.yes), 0, s, t, s1, t1);
      AgreeUnrun(mid, BlockIds(x.no), InferBlock(seed, x.no, mid), s1, t1);
    } else {
      AgreeUnrun(consts, BlockIds(x.yes), mid, s, t);
      BlockAgrees(m, n, seed, x.no, scope, mid, s, t, f, g);
    }
  }

  /** `constexpr_prop`. In a predictable block, two runs that agree on the seeds run the same inferred
      statements, with the same values. */
  method ConstExprProp(b: Block, seed: Id -> bool) returns (r: set<Id>)
    requires WellScoped(b, {})
    ensures r == InferBlock(seed, b, {}) && forall a :: a in r <==> Justified(seed, b, r, a)
    ensures Predictable(seed, b, {}) ==> Noninterfering(seed, b, r)
    ensures Free(seed, b, {}) && Noninterfering(seed, b, r) ==> Predictable(seed, b, {})
  {
    var prop := new ConstExprPropagation(seed);
    prop.VisitBlock(b);
    r := prop.constStmts;
    forall a
      ensures a in r <==> Justified(seed, b, r, a)
    {
      InferredExactly(seed, b, a);
    }
    if Predictable(seed, b, {}) {
      Noninterference(seed, b);
    } else if Free(seed, b, {}) {
      FreeExactly(seed, b);
    }
  }

  /** Two finished runs from before the block, with the same arithmetic and the same seeds. */
  ghost predicate TwoRuns(seed: Id -> bool, b: Block, m: Machine, n: Machine, s: State, t: State, f: nat, g: nat) {
    && SameArithmetic(m, n) && Fresh(BlockIds(b), s, t)
    && Finished(seed, BlockIds(b), ExecBlock(m, b, s, f), ExecBlock(n, b, t, g))
  }

  /** All pairs of finished runs that agree on the seeds agree on `inferred`. */
  ghost predicate Noninterfering(seed: Id -> bool, b: Block, inferred: set<Id>) {
    forall m: Machine, n: Machine, s: State, t: State, f: nat, g: nat | TwoRuns(seed, b, m, n, s, t, f, g) ::
      Agree(inferred, ExecBlock(m, b, s, f).state, ExecBlock(n, b, t, g).state)
  }

  lemma Noninterference(seed: Id -> bool, b: Block)
    requires WellScoped(b, {}) && Predictable(seed, b, {})
    ensures Noninterfering(seed, b, InferBlock(seed, b, {}))
  {
    forall m: Machine, n: Machine, s: State, t: State, f: nat, g: nat | TwoRuns(seed, b, m, n, s, t, f, g)
      ensures Agree(InferBlock(seed, b, {}), ExecBlock(m, b, s, f).state, ExecBlock(n, b, t, g).state)
    {
      BlockAgrees(m, n, seed, b, {}, {}, s, t, f, g);
    }
  }

  /******* Exits that depend on an unknown value *******/

  /** The conditions of a block. */
  function Conds(b: Block): set<Id> {
    match b
    case End => {}
    case Cons(s, rest) => StmtConds(s) + Conds(rest)
  }

  function StmtConds(s: Stmt): set<Id> {
    match s
    case If(_, c, yes, no) => {c} + Conds(yes) + Conds(no)
    case WhileControl(_, c) => {c}
    case _ => {}
  }

  /** Those of branches, and inside them. */
  function BranchConds(b: Block): (r: set<Id>)
    ensures r <= Conds(b)
  {
    match b
    case End => {}
    case Cons(s, rest) => Inner(s) + BranchConds(rest)
  }

  function Inner(s: Stmt): set<Id> {
    if s.If? then StmtConds(s) else {}
  }

  /** The values that come from the world, all but those of pure operations. */
  function After(s: Stmt, known: set<Id>): set<Id> {
    if s.Op? && s.pure then known else known + Defines(s)
  }

  /** Conditions come from the world, and no condition of a branch is used twice; a while control may ask
      again. There is a way to every statement, and statements without a value are not seeds. */
  predicate Free(seed: Id -> bool, b: Block, known: set<Id>) {
    match b
    case End => true
    case Cons(s, rest) =>
      && StmtFree(seed, s, known) && Free(seed, rest, After(s, known))
      && StmtConds(s) !! BranchConds(rest) && Inner(s) !! Conds(rest)
      && (rest.Cons? ==> StmtMayFall(s))
  }

  predicate StmtFree(seed: Id -> bool, s: Stmt, known: set<Id>) {
    match s
    case If(_, c, yes, no) =>
      && c in known && c !in Conds(yes) + Conds(no) && Conds(yes) !! Conds(no)
      && Free(seed, yes, known) && Free(seed, no, known)
    case WhileControl(id, c) => c in known && !seed(id)
    case Continue(id) => !seed(id)
    case Loop(id, _, _) => !seed(id)
    case _ => true
  }

  /******* Runs by the conditions that are false *******/

  predicate Falls(no: set<Id>, b: Block) {
    match b
    case End => true
    case Cons(s, rest) => StmtFalls(no, s) && Falls(no, rest)
  }

  predicate StmtFalls(no: set<Id>, s: Stmt) {
    match s
    case If(_, c, yes, other) => if c in no then Falls(no, other) else Falls(no, yes)
    case WhileControl(_, c) => c !in no
    case Continue(_) => false
    case _ => true
  }

  /** The statements that run and have a value. */
  function Runs(no: set<Id>, b: Block): (r: set<Id>)
    ensures r <= BlockIds(b)
  {
    match b
    case End => {}
    case Cons(s, rest) => StmtRuns(no, s) + if StmtFalls(no, s) then Runs(no, rest) else {}
  }

  function StmtRuns(no: set<Id>, s: Stmt): (r: set<Id>)
    ensures r <= StmtIds(s)
  {
    match s
    case If(_, c, yes, other) => if c in no then Runs(no, other) else Runs(no, yes)
    case WhileControl(_, _) => {}
    case Continue(_) => {}
    case Loop(_, _, _) => {}
    case _ => {s.id}
  }

  function Pures(b: Block): (r: set<Id>)
    ensures r <= BlockIds(b)
  {
    match b
    case End => {}
    case Cons(s, rest) => StmtPures(s) + Pures(rest)
  }

  function StmtPures(s: Stmt): (r: set<Id>)
    ensures r <= StmtIds(s)
  {
    match s
    case Op(id, pure, _) => if pure then {id} else {}
    case If(_, _, yes, no) => Pures(yes) + Pures(no)
    case _ => {}
  }

  function One(id: Id, vals: seq<int>): int {
    1
  }

  function NonZero(v: int): bool {
    v != 0
  }

  /** The world gives zero for the statements in `no`, and one for all others; no loop is entered. */
  function Choosing(no: set<Id>): Machine {
    Machine({}, x => 0, One, (id, vals, w) => (if id in no then 0 else 1, w),
            (id, vals, w) => (false, w), (x, v) => v, (id, x, v) => v, NonZero)
  }

  ghost predicate Told(no: set<Id>, known: set<Id>, s: State) {
    forall a | a in known :: a in s.env && s.env[a] == if a in no then 0 else 1
  }

  /** The run has added values of the statements `runs`, of which `pures` are pure. */
  ghost predicate Ran(no: set<Id>, s: State, o: Outcome, falls: bool, runs: set<Id>, pures: set<Id>) {
    && o.Done? && (Fell(o) <==> falls) && o.state.env.Keys == s.env.Keys + runs
    && (forall a | a in s.env :: o.state.env[a] == s.env[a])
    && (forall a | a in runs :: o.state.env[a] == if a in no && a !in pures then 0 else 1)
  }

  lemma {:induction false} BlockRan(no: set<Id>, seed: Id -> bool, b: Block, scope: set<Id>, known: set<Id>, s: State,
                                    f: nat)
    requires WellScoped(b, scope) && Free(seed, b, known) && Told(no, known, s) && s.env.Keys !! BlockIds(b)
    ensures Ran(no, s, ExecBlock(Choosing(no), b, s, f), Falls(no, b), Runs(no, b), Pures(b))
    decreases b
  {
    if b.Cons? {
      var x := b.first;
      StmtRan(no, seed, x, scope, known, s, f);
      var o := ExecStmt(Choosing(no), x, s, f);
      if StmtFalls(no, x) {
        BlockRan(no, seed, b.rest, scope + Defines(x), After(x, known), o.state, f);
      }
      RanOn(no, b, scope, s, o, f);
    }
  }

  lemma RanOn(no: set<Id>, b: Block, scope: set<Id>, s: State, o: Outcome, f: nat)
    requires b.Cons? && WellScoped(b, scope) && o == ExecStmt(Choosing(no), b.first, s, f)
    requires s.env.Keys !! BlockIds(b)
    requires Ran(no, s, o, StmtFalls(no, b.first), StmtRuns(no, b.first), StmtPures(b.first))
    requires StmtFalls(no, b.first) ==>
               Ran(no, o.state, ExecBlock(Choosing(no), b.rest, o.state, f), Falls(no, b.rest), Runs(no, b.rest),
                   Pures(b.rest))
    ensures Ran(no, s, ExecBlock(Choosing(no), b, s, f), Falls(no, b), Runs(no, b), Pures(b))
  {
  }

  lemma {:induction false} StmtRan(no: set<Id>, seed: Id -> bool, x: Stmt, scope: set<Id>, known: set<Id>, s: State,
                                   f: nat)
    requires StmtScoped(x, scope) && StmtFree(seed, x, known) && Told(no, known, s) && s.env.Keys !! StmtIds(x)
    ensures Ran(no, s, ExecStmt(Choosing(no), x, s, f), StmtFalls(no, x), StmtRuns(no, x), StmtPures(x))
    ensures Told(no, After(x, known), ExecStmt(Choosing(no), x, s, f).state) || !StmtFalls(no, x)
    decreases x
  {
    if x.If? {
      BlockRan(no, seed, if x.cond in no then x.no else x.yes, scope, known, s, f);
      BranchRan(no, x, scope, s, f);
    } else {
      PlainRan(no, x, s, f);
    }
  }

  lemma BranchRan(no: set<Id>, x: Stmt, scope: set<Id>, s: State, f: nat)
    requires x.If? && StmtScoped(x, scope) && Told(no, {x.cond}, s)
    requires var taken := if x.cond in no then x.no else x.yes;
             Ran(no, s, ExecBlock(Choosing(no), taken, s, f), Falls(no, taken), Runs(no, taken), Pures(taken))
    ensures Ran(no, s, ExecStmt(Choosing(no), x, s, f), StmtFalls(no, x), StmtRuns(no, x), StmtPures(x))
  {
    assert ExecStmt(Choosing(no), x, s, f) == ExecBlock(Choosing(no), if x.cond in no then x.no else x.yes, s, f);
  }

  lemma PlainRan(no: set<Id>, x: Stmt, s: State, f: nat)
    requires !x.If? && x.id !in s.env && (x.WhileControl? ==> Told(no, {x.cond}, s))
    ensures Ran(no, s, ExecStmt(Choosing(no), x, s, f), StmtFalls(no, x), StmtRuns(no, x), StmtPures(x))
  {
  }

  /******* Two choices that differ in one condition *******/

  ghost predicate AlikeOn(ids: set<Id>, p: set<Id>, q: set<Id>) {
    forall k | k in ids :: k in p <==> k in q
  }

  /** Only the conditions of a block matter to it. */
  lemma {:induction false} SameWay(p: set<Id>, q: set<Id>, b: Block)
    requires AlikeOn(Conds(b), p, q)
    ensures Falls(p, b) == Falls(q, b) && Runs(p, b) == Runs(q, b)
    decreases b
  {
    if b.Cons? {
      StmtSameWay(p, q, b.first);
      SameWay(p, q, b.rest);
    }
  }

  lemma {:induction false} StmtSameWay(p: set<Id>, q: set<Id>, s: Stmt)
    requires AlikeOn(StmtConds(s), p, q)
    ensures StmtFalls(p, s) == StmtFalls(q, s) && StmtRuns(p, s) == StmtRuns(q, s)
    decreases s
  {
    if s.If? {
      SameWay(p, q, s.yes);
      SameWay(p, q, s.no);
    }
  }

  /** A choice for the first statement and one for the others. */
  lemma Together(p: set<Id>, q: set<Id>, b: Block)
    requires b.Cons? && StmtConds(b.first) !! q && p !! Conds(b.rest)
    ensures StmtFalls(p + q, b.first) == StmtFalls(p, b.first) && StmtRuns(p + q, b.first) == StmtRuns(p, b.first)
    ensures Falls(p + q, b.rest) == Falls(q, b.rest) && Runs(p + q, b.rest) == Runs(q, b.rest)
  {
    StmtSameWay(p, p + q, b.first);
    SameWay(q, p + q, b.rest);
  }

  lemma {:induction false} FallWay(seed: Id -> bool, b: Block, known: set<Id>) returns (p: set<Id>)
    requires Free(seed, b, known) && MayFall(b)
    ensures p <= BranchConds(b) && Falls(p, b)
    decreases b
  {
    p := {};
    if b.Cons? {
      var here := StmtFallWay(seed, b.first, known);
      var there := FallWay(seed, b.rest, After(b.first, known));
      p := here + there;
      Together(here, there, b);
    }
  }

  lemma {:induction false} StmtFallWay(seed: Id -> bool, s: Stmt, known: set<Id>) returns (p: set<Id>)
    requires StmtFree(seed, s, known) && StmtMayFall(s)
    ensures p <= Inner(s) && StmtFalls(p, s)
    decreases s
  {
    p := {};
    if s.If? {
      if MayFall(s.yes) {
        p := FallWay(seed, s.yes, known);
      } else {
        var q := FallWay(seed, s.no, known);
        p := q + {s.cond};
        SameWay(q, p, s.no);
      }
    }
  }

  lemma {:induction false} ExitWay(seed: Id -> bool, b: Block, known: set<Id>) returns (p: set<Id>)
    requires Free(seed, b, known) && !NoExit(b)
    ensures p <= Conds(b) && !Falls(p, b)
    decreases b
  {
    if !StmtNoExit(b.first) {
      p := StmtExitWay(seed, b.first, known);
    } else {
      p := ExitWay(seed, b.rest, After(b.first, known));
    }
  }

  lemma {:induction false} StmtExitWay(seed: Id -> bool, s: Stmt, known: set<Id>) returns (p: set<Id>)
    requires StmtFree(seed, s, known) && !StmtNoExit(s)
    ensures p <= StmtConds(s) && !StmtFalls(p, s)
    decreases s
  {
    if s.If? {
      if !NoExit(s.yes) {
        p := ExitWay(seed, s.yes, known);
      } else {
        var q := ExitWay(seed, s.no, known);
        p := q + {s.cond};
        SameWay(q, p, s.no);
      }
    } else {
      p := StmtConds(s);
    }
  }

  /** Seeds from the world are inferred when they are reached by inference. */
  ghost predicate SeedsKnown(seed: Id -> bool, known: set<Id>, consts: set<Id>) {
    forall k | k in known && seed(k) :: k in consts
  }

  /** Two choices that differ in `c` only, a condition that is neither inferred nor a seed. */
  ghost predicate Differ(seed: Id -> bool, consts: set<Id>, p: set<Id>, q: set<Id>, c: Id) {
    c !in consts && !seed(c) && forall k | k != c :: k in p <==> k in q
  }

  /** A block that is not steady has such choices for reaching its end and for leaving it. */
  lemma {:induction false} TwoWays(seed: Id -> bool, b: Block, known: set<Id>, consts: set<Id>)
    returns (p: set<Id>, q: set<Id>, c: Id)
    requires Free(seed, b, known) && SeedsKnown(seed, known, consts) && MayFall(b) && !Steady(seed, b, consts)
    ensures Differ(seed, consts, p, q, c) && p <= BranchConds(b) && q <= Conds(b) && Falls(p, b) && !Falls(q, b)
    decreases b
  {
    var x, rest := b.first, b.rest;
    var now := InferStmt(seed, x, consts);
    InferStmtIds(seed, x, consts);
    if !StmtSteady(seed, x, consts) {
      var p1, q1;
      p1, q1, c := StmtTwoWays(seed, x, known, consts);
      var there := FallWay(seed, rest, After(x, known));
      p, q := p1 + there, q1 + there;
      Together(p1, there, b);
      StmtSameWay(q1, q, x);
    } else {
      var here := StmtFallWay(seed, x, known);
      var p2, q2;
      p2, q2, c := TwoWays(seed, rest, After(x, known), now);
      p, q := here + p2, here + q2;
      NotAsked(seed, b, consts, q2, c);
      Together(here, p2, b);
      Together(here, q2, b);
    }
  }

  /** A steady statement does not ask for what is not inferred behind it. */
  lemma NotAsked(seed: Id -> bool, b: Block, consts: set<Id>, q: set<Id>, c: Id)
    requires b.Cons? && StmtSteady(seed, b.first, consts) && Inner(b.first) !! Conds(b.rest) && q <= Conds(b.rest)
    requires c !in consts && StmtConds(b.first) !! q - {c}
    ensures StmtConds(b.first) !! q
  {
  }

  lemma {:induction false} StmtTwoWays(seed: Id -> bool, x: Stmt, known: set<Id>, consts: set<Id>)
    returns (p: set<Id>, q: set<Id>, c: Id)
    requires StmtFree(seed, x, known) && SeedsKnown(seed, known, consts)
    requires StmtMayFall(x) && !StmtSteady(seed, x, consts)
    ensures Differ(seed, consts, p, q, c) && p <= Inner(x) && q <= StmtConds(x)
    ensures StmtFalls(p, x) && !StmtFalls(q, x)
    decreases x
  {
    if x.WhileControl? {
      p, q, c := {}, {x.cond}, x.cond;
    } else if x.cond !in consts {
      p, q := BranchTwoWays(seed, x, known);
      c := x.cond;
    } else if !Steady(seed, x.yes, consts) {
      p, q, c := TwoWays(seed, x.yes, known, consts);
    } else {
      InferIds(seed, x.yes, consts);
      var p1, q1;
      p1, q1, c := TwoWays(seed, x.no, known, InferBlock(seed, x.yes, consts));
      p, q := p1 + {x.cond}, q1 + {x.cond};
      SameWay(p1, p, x.no);
      SameWay(q1, q, x.no);
    }
  }

  /** If a branch has an exit, one branch can be left where the other reaches its end. */
  lemma BranchTwoWays(seed: Id -> bool, x: Stmt, known: set<Id>) returns (p: set<Id>, q: set<Id>)
    requires x.If? && StmtFree(seed, x, known) && StmtMayFall(x) && !(NoExit(x.yes) && NoExit(x.no))
    ensures p <= StmtConds(x) && q <= StmtConds(x) && StmtFalls(p, x) && !StmtFalls(q, x)
    ensures forall k | k != x.cond :: k in p <==> k in q
  {
    if NoExit(x.yes) {
      NoExitMayFall(x.yes);
    }
    if NoExit(x.no) {
      NoExitMayFall(x.no);
    }
    if MayFall(x.yes) && !NoExit(x.no) {
      var ends := FallWay(seed, x.yes, known);
      var leaves := ExitWay(seed, x.no, known);
      p := ends + leaves;
      q := p + {x.cond};
      SameWay(ends, p, x.yes);
      SameWay(leaves, q, x.no);
    } else {
      var ends := FallWay(seed, x.no, known);
      var leaves := ExitWay(seed, x.yes, known);
      q := ends + leaves;
      p := q + {x.cond};
      SameWay(ends, p, x.no);
      SameWay(leaves, q, x.yes);
    }
  }

  lemma {:induction false} NoExitMayFall(b: Block)
    requires NoExit(b)
    ensures MayFall(b)
    decreases b
  {
    if b.Cons? {
      if b.first.If? {
        NoExitMayFall(b.first.yes);
      }
      NoExitMayFall(b.rest);
    }
  }

  /** A choice that reaches a statement that is inferred in the block. */
  lemma {:induction false} ReachInferred(seed: Id -> bool, b: Block, known: set<Id>, consts: set<Id>)
    returns (p: set<Id>, a: Id)
    requires Free(seed, b, known) && InferBlock(seed, b, consts) != consts
    ensures p <= BranchConds(b) && a in InferBlock(seed, b, consts) && a in Runs(p, b)
    decreases b
  {
    var x, rest := b.first, b.rest;
    var now := InferStmt(seed, x, consts);
    InferStmtIds(seed, x, consts);
    InferIds(seed, rest, now);
    if now != consts {
      p, a := ReachHere(seed, x, known, consts);
    } else {
      var here := StmtFallWay(seed, x, known);
      var there;
      there, a := ReachInferred(seed, rest, After(x, known), now);
      p := here + there;
      Together(here, there, b);
    }
  }

  lemma {:induction false} ReachHere(seed: Id -> bool, x: Stmt, known: set<Id>, consts: set<Id>)
    returns (p: set<Id>, a: Id)
    requires StmtFree(seed, x, known) && InferStmt(seed, x, consts) != consts
    ensures p <= Inner(x) && a in InferStmt(seed, x, consts) && a in StmtRuns(p, x)
    decreases x
  {
    p, a := {}, x.id;
    if x.If? {
      var mid := InferBlock(seed, x.yes, consts);
      InferIds(seed, x.no, mid);
      if mid != consts {
        p, a := ReachInferred(seed, x.yes, known, consts);
      } else {
        var q;
        q, a := ReachInferred(seed, x.no, known, mid);
        p := q + {x.cond};
        SameWay(q, p, x.no);
      }
    }
  }

  /** With one choice an inferred statement `a` runs, with the other it does not. */
  ghost predicate Separates(seed: Id -> bool, b: Block, consts: set<Id>, p: set<Id>, q: set<Id>, c: Id, a: Id) {
    && Differ(seed, consts, p, q, c) && p <= BranchConds(b) && q <= Conds(b)
    && a in InferBlock(seed, b, consts) && a in Runs(p, b) && a !in Runs(q, b)
  }

  lemma {:induction false} Separated(seed: Id -> bool, b: Block, scope: set<Id>, known: set<Id>, consts: set<Id>)
    returns (p: set<Id>, q: set<Id>, c: Id, a: Id)
    requires WellScoped(b, scope) && Free(seed, b, known) && SeedsKnown(seed, known, consts)
    requires !Predictable(seed, b, consts)
    ensures Separates(seed, b, consts, p, q, c, a)
    decreases b
  {
    var x, rest := b.first, b.rest;
    InferStmtIds(seed, x, consts);
    if !StmtPredictable(seed, x, consts) {
      p, q, c, a := SeparatedInside(seed, b, scope, known, consts);
    } else if StmtSteady(seed, x, consts) {
      var p2, q2;
      p2, q2, c, a := Separated(seed, rest, scope + Defines(x), After(x, known), InferStmt(seed, x, consts));
      p, q := SeparatedBehind(seed, b, known, consts, p2, q2, c, a);
    } else {
      p, q, c, a := SeparatedHere(seed, b, known, consts);
    }
  }

  /** In a branch under an inferred condition. */
  lemma {:induction false} SeparatedInside(seed: Id -> bool, b: Block, scope: set<Id>, known: set<Id>, consts: set<Id>)
    returns (p: set<Id>, q: set<Id>, c: Id, a: Id)
    requires b.Cons? && WellScoped(b, scope) && Free(seed, b, known) && SeedsKnown(seed, known, consts)
    requires !StmtPredictable(seed, b.first, consts)
    ensures Separates(seed, b, consts, p, q, c, a)
    decreases b, 0
  {
    var x := b.first;
    var mid := InferBlock(seed, x.yes, consts);
    InferIds(seed, x.yes, consts);
    InferIds(seed, x.no, mid);
    InferIds(seed, b.rest, InferStmt(seed, x, consts));
    if !Predictable(seed, x.yes, consts) {
      p, q, c, a := Separated(seed, x.yes, scope, known, consts);
    } else {
      var p1, q1;
      p1, q1, c, a := Separated(seed, x.no, scope, known, mid);
      p, q := p1 + {x.cond}, q1 + {x.cond};
      SameWay(p1, p, x.no);
      SameWay(q1, q, x.no);
    }
  }

  /** Behind a steady statement. */
  lemma SeparatedBehind(seed: Id -> bool, b: Block, known: set<Id>, consts: set<Id>, p2: set<Id>, q2: set<Id>, c: Id,
                        a: Id)
    returns (p: set<Id>, q: set<Id>)
    requires b.Cons? && Free(seed, b, known) && StmtIds(b.first) !! BlockIds(b.rest)
    requires StmtSteady(seed, b.first, consts) && StmtMayFall(b.first)
    requires Separates(seed, b.rest, InferStmt(seed, b.first, consts), p2, q2, c, a)
    ensures Separates(seed, b, consts, p, q, c, a)
  {
    InferStmtIds(seed, b.first, consts);
    var here := StmtFallWay(seed, b.first, known);
    p, q := here + p2, here + q2;
    NotAsked(seed, b, consts, q2, c);
    Together(here, p2, b);
    Together(here, q2, b);
  }

  /** By a statement that is not steady, if something is inferred behind it. */
  lemma SeparatedHere(seed: Id -> bool, b: Block, known: set<Id>, consts: set<Id>)
    returns (p: set<Id>, q: set<Id>, c: Id, a: Id)
    requires b.Cons? && Free(seed, b, known) && SeedsKnown(seed, known, consts)
    requires StmtIds(b.first) !! BlockIds(b.rest) && StmtMayFall(b.first) && !StmtSteady(seed, b.first, consts)
    requires var now := InferStmt(seed, b.first, consts); InferBlock(seed, b.rest, now) != now
    ensures Separates(seed, b, consts, p, q, c, a)
  {
    var p1, q1, there;
    p1, q1, c := StmtTwoWays(seed, b.first, known, consts);
    there, a := ReachInferred(seed, b.rest, After(b.first, known), InferStmt(seed, b.first, consts));
    p, q := p1 + there, q1 + there;
    Together(p1, there, b);
    StmtSameWay(q1, q, b.first);
  }

  /** For such blocks the condition is exact: the property holds if and only if the block is predictable. */
  lemma FreeExactly(seed: Id -> bool, b: Block)
    requires WellScoped(b, {}) && Free(seed, b, {})
    ensures Noninterfering(seed, b, InferBlock(seed, b, {})) <==> Predictable(seed, b, {})
  {
    if Predictable(seed, b, {}) {
      Noninterference(seed, b);
    } else {
      var p, q, c, a := Separated(seed, b, {}, {}, {});
      var s := State(map[], map[], []);
      BlockRan(p, seed, b, {}, {}, s, 0);
      BlockRan(q, seed, b, {}, {}, s, 0);
      assert TwoRuns(seed, b, Choosing(p), Choosing(q), s, s, 0, 0);
      assert !AgreeAt(ExecBlock(Choosing(p), b, s, 0).state, ExecBlock(Choosing(q), b, s, 0).state, a);
    }
  }

  /******* A continue under an unknown condition *******/

  /** An unknown value, a `continue` if it is true, and a seed. */
  function Exiting(): Block {
    Cons(Op(0, false, []), Cons(If(1, 0, Cons(Continue(2), End), End), Cons(Op(3, false, []), End)))
  }

  function IsThree(a: Id): bool {
    a == 3
  }

  /** The block is one of those for which the condition is exact. */
  lemma ExitingFree()
    ensures WellScoped(Exiting(), {}) && Free(IsThree, Exiting(), {})
  {
    var b := Exiting();
    var asked, seeded := b.rest, b.rest.rest;
    assert {} + Defines(b.first) == {0} && {0} + Defines(asked.first) == {0};
    assert Conds(seeded) == {} && BranchConds(seeded) == {};
    assert Free(IsThree, seeded, {0}) && WellScoped(seeded, {0});
    assert Free(IsThree, asked.first.yes, {0}) && WellScoped(asked.first.yes, {0});
    assert Free(IsThree, asked, {0}) && WellScoped(asked, {0});
  }

  /** The seed is inferred, but runs in one of two runs only. */
  lemma ExitInterferes()
    ensures !Predictable(IsThree, Exiting(), {})
            && !Noninterfering(IsThree, Exiting(), InferBlock(IsThree, Exiting(), {}))
  {
    var b := Exiting();
    ExitingFree();
    assert 3 in InferBlock(IsThree, b.rest.rest, {});
    assert !StmtSteady(IsThree, b.rest.first, {}) && InferStmt(IsThree, b.rest.first, {}) == {};
    assert InferStmt(IsThree, b.first, {}) == {} && !Predictable(IsThree, b.rest, {});
    FreeExactly(IsThree, b);
  }
}

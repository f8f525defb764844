/** The search for immutable local variables: stored once, in their own block, and loaded only after. */
module ImmutableLocals {
  import opened Ssa

  datatype Status = Created | StoredOnce | Invalid

  type Statuses = map<Id, Status>

  /******* What one visit does *******/

  /** The variables among the operands become invalid. */
  function Invalidate(st: Statuses, operands: set<Id>): Statuses {
    map x | x in st :: if x in operands then Invalid else st[x]
  }

  function AfterLoad(st: Statuses, x: Id): Statuses {
    if x in st && st[x].Created? then st[x := Invalid] else st
  }

  /** `own` holds the variables whose block is the one of the store. */
  function AfterStore(st: Statuses, own: set<Id>, x: Id, sameType: bool): Statuses {
    if x !in st then st
    else if x !in own || st[x].StoredOnce? || !sameType then st[x := Invalid]
    else if st[x].Created? then st[x := StoredOnce]
    else st
  }

  function AfterStmt(st: Statuses, own: set<Id>, s: Stmt): Statuses
    decreases s
  {
    match s
    case Alloca(x) => st[x := Created]
    case Load(_, x) => AfterLoad(st, x)
    case Store(_, x, _, sameType) => AfterStore(st, own, x, sameType)
    case If(_, c, yes, no) => AfterBlock(AfterBlock(Invalidate(st, {c}), {}, yes), {}, no)
    case Loop(_, _, body) => AfterBlock(Invalidate(st, Operands(s)), {}, body)
    case _ => Invalidate(st, Operands(s))
  }

  function AfterBlock(st: Statuses, own: set<Id>, b: Block): Statuses
    decreases b
  {
    match b
    case End => st
    case Cons(s, rest) => AfterBlock(AfterStmt(st, own, s), own + Declares(s), rest)
  }

  /******* The pass *******/

  class GatherImmutableLocalVars {
    var allocaStatus: Statuses

    constructor ()
      ensures allocaStatus == map[]
    {
      allocaStatus := map[];
    }

    method DefaultVisit(operands: set<Id>)
      modifies this
      ensures allocaStatus == Invalidate(old(allocaStatus), operands)
    {
      allocaStatus := map x | x in allocaStatus :: if x in operands then Invalid else allocaStatus[x];
    }

    method VisitLoad(x: Id)
      modifies this
      ensures allocaStatus == AfterLoad(old(allocaStatus), x)
    {
      if x in allocaStatus && allocaStatus[x].Created? {
        allocaStatus := allocaStatus[x := Invalid];
      }
    }

    method VisitStore(own: set<Id>, x: Id, sameType: bool)
      modifies this
      ensures allocaStatus == AfterStore(old(allocaStatus), own, x, sameType)
    {
      if x in allocaStatus {
        if x !in own || allocaStatus[x].StoredOnce? || !sameType {
          allocaStatus := allocaStatus[x := Invalid];
        } else if allocaStatus[x].Created? {
          allocaStatus := allocaStatus[x := StoredOnce];
        }
      }
    }

    method VisitStmt(own: set<Id>, s: Stmt)
      modifies this
      ensures allocaStatus == AfterStmt(old(allocaStatus), own, s)
      decreases s
    {
      match s {
        case Alloca(x) => allocaStatus := allocaStatus[x := Created];
        case Load(_, x) => VisitLoad(x);
        case Store(_, x, _, sameType) => VisitStore(own, x, sameType);
        case If(_, c, yes, no) =>
          DefaultVisit({c});
          VisitBlock(yes);
          VisitBlock(no);
        case Loop(_, _, body) =>
          DefaultVisit(Operands(s));
          VisitBlock(body);
        case _ => DefaultVisit(Operands(s));
      }
    }

    method VisitBlock(b: Block)
      modifies this
      ensures allocaStatus == AfterBlock(old(allocaStatus), {}, b)
      decreases b
    {
      var own, c := {}, b;
      while c.Cons?
        invariant AfterBlock(allocaStatus, own, c) == AfterBlock(old(allocaStatus), {}, b)
        invariant c == b || c < b
        decreases c
      {
        VisitStmt(own, c.first);
        own := own + Declares(c.first);
        c := c.rest;
      }
    }
  }

  /******* What the verdict means *******/

  /** The variables of `vars` that a statement stores to, nested statements included. */
  function StoredBy(vars: set<Id>, s: Stmt): set<Id> {
    match s
    case Store(_, x, _, _) => if x in vars then {x} else {}
    case If(_, _, yes, no) => StoredIn(vars, yes) + StoredIn(vars, no)
    case Loop(_, _, body) => StoredIn(vars, body)
    case _ => {}
  }

  function StoredIn(vars: set<Id>, b: Block): set<Id> {
    match b
    case End => {}
    case Cons(s, rest) => StoredBy(vars, s) + StoredIn(vars, rest)
  }

  /** Each of `vars` is stored at most once, in its own block and with its own type, is loaded after the
      store only, and is not used otherwise. `stored` holds those stored before. */
  predicate UsedOnce(vars: set<Id>, b: Block, own: set<Id>, stored: set<Id>) {
    match b
    case End => true
    case Cons(s, rest) =>
      StmtUsedOnce(vars, s, own, stored) && UsedOnce(vars, rest, own + Declares(s), stored + StoredBy(vars, s))
  }

  predicate StmtUsedOnce(vars: set<Id>, s: Stmt, own: set<Id>, stored: set<Id>) {
    match s
    case Alloca(_) => true
    case Load(_, x) => x in vars ==> x in stored
    case Store(_, x, _, sameType) => x in vars ==> x in own && x !in stored && sameType
    case If(_, c, yes, no) => c !in vars && UsedOnce(vars, yes, {}, stored)
      && UsedOnce(vars, no, {}, stored + StoredIn(vars, yes))
    case Loop(_, _, body) => Operands(s) !! vars && UsedOnce(vars, body, {}, stored)
    case _ => Operands(s) !! vars
  }

  /** The statuses of `vars` say which of them are stored, and none is invalid. */
  ghost predicate Tracks(vars: set<Id>, st: Statuses, stored: set<Id>) {
    forall x | x in vars :: TracksAt(st, stored, x)
  }

  ghost predicate TracksAt(st: Statuses, stored: set<Id>, x: Id) {
    (x in stored ==> x in st) && (x in st ==> st[x] == if x in stored then StoredOnce else Created)
  }

  ghost predicate SomeInvalid(vars: set<Id>, st: Statuses) {
    exists x :: x in vars && IsInvalid(st, x)
  }

  predicate IsInvalid(st: Statuses, x: Id) {
    x in st && st[x].Invalid?
  }

  lemma {:induction false} DeclaredIds(b: Block)
    ensures Declared(b) <= BlockIds(b)
    decreases b
  {
    if b.Cons? {
      DeclaredIds(b.rest);
      DeclaredByIds(b.first);
    }
  }

  lemma {:induction false} DeclaredByIds(s: Stmt)
    ensures DeclaredBy(s) <= StmtIds(s)
    decreases s
  {
    match s
    case If(_, _, yes, no) =>
      DeclaredIds(yes);
      DeclaredIds(no);
    case Loop(_, _, body) => DeclaredIds(body);
    case _ =>
  }

  /** The statuses are those of the variables declared so far, and an invalid one stays invalid. */
  lemma {:induction false} BlockKeeps(st: Statuses, own: set<Id>, b: Block)
    ensures AfterBlock(st, own, b).Keys == st.Keys + Declared(b)
    ensures forall x | IsInvalid(st, x) && x !in Declared(b) :: IsInvalid(AfterBlock(st, own, b), x)
    decreases b
  {
    if b.Cons? {
      StmtKeeps(st, own, b.first);
      BlockKeeps(AfterStmt(st, own, b.first), own + Declares(b.first), b.rest);
    }
  }

  lemma {:induction false} StmtKeeps(st: Statuses, own: set<Id>, s: Stmt)
    ensures AfterStmt(st, own, s).Keys == st.Keys + DeclaredBy(s)
    ensures forall x | IsInvalid(st, x) && x !in DeclaredBy(s) :: IsInvalid(AfterStmt(st, own, s), x)
    decreases s
  {
    match s
    case If(_, c, yes, no) =>
      BlockKeeps(Invalidate(st, {c}), {}, yes);
      BlockKeeps(AfterBlock(Invalidate(st, {c}), {}, yes), {}, no);
    case Loop(_, _, body) => BlockKeeps(Invalidate(st, Operands(s)), {}, body);
    case _ =>
  }

  /** Where the traversal stands: the variables in scope have a status, those to come have none. */
  ghost predicate Ready(vars: set<Id>, st: Statuses, ids: set<Id>, declared: set<Id>, scope: set<Id>) {
    vars * scope <= st.Keys && st.Keys !! ids && vars * ids <= declared
  }

  /** All of `vars` are tracked through a block exactly when they are used once. */
  lemma {:induction false} BlockExact(vars: set<Id>, st: Statuses, b: Block, own: set<Id>, stored: set<Id>,
                                      scope: set<Id>)
    requires WellScoped(b, scope) && Ready(vars, st, BlockIds(b), Declared(b), scope) && Tracks(vars, st, stored)
    ensures UsedOnce(vars, b, own, stored) ==> Tracks(vars, AfterBlock(st, own, b), stored + StoredIn(vars, b))
    ensures !UsedOnce(vars, b, own, stored) ==> SomeInvalid(vars, AfterBlock(st, own, b))
    decreases b
  {
    if b.Cons? {
      var s, rest := b.first, b.rest;
      DeclaredIds(rest);
      DeclaredByIds(s);
      StmtKeeps(st, own, s);
      StmtExact(vars, st, s, own, stored, scope);
      var mid := AfterStmt(st, own, s);
      BlockKeeps(mid, own + Declares(s), rest);
      if StmtUsedOnce(vars, s, own, stored) {
        OwnIdDeclared(vars, s, scope);
        BlockExact(vars, mid, rest, own + Declares(s), stored + StoredBy(vars, s), scope + Defines(s));
        assert stored + StoredBy(vars, s) + StoredIn(vars, rest) == stored + StoredIn(vars, b);
      } else {
        var x :| x in vars && IsInvalid(mid, x);
        assert IsInvalid(AfterBlock(mid, own + Declares(s), rest), x);
      }
    }
  }

  lemma OwnIdDeclared(vars: set<Id>, s: Stmt, scope: set<Id>)
    requires StmtScoped(s, scope) && vars * StmtIds(s) <= DeclaredBy(s)
    ensures s.id in vars ==> s.Alloca?
  {
    assert s.id in vars ==> s.id in vars * StmtIds(s);
    match s
    case If(_, _, yes, no) =>
      DeclaredIds(yes);
      DeclaredIds(no);
    case Loop(_, _, body) => DeclaredIds(body);
    case _ =>
  }

  lemma {:induction false} StmtExact(vars: set<Id>, st: Statuses, s: Stmt, own: set<Id>, stored: set<Id>,
                                     scope: set<Id>)
    requires StmtScoped(s, scope) && Ready(vars, st, StmtIds(s), DeclaredBy(s), scope) && Tracks(vars, st, stored)
    ensures StmtUsedOnce(vars, s, own, stored) ==> Tracks(vars, AfterStmt(st, own, s), stored + StoredBy(vars, s))
    ensures !StmtUsedOnce(vars, s, own, stored) ==> SomeInvalid(vars, AfterStmt(st, own, s))
    decreases s
  {
    match s
    case If(_, c, yes, no) => IfExact(vars, st, s, own, stored, scope);
    case Loop(_, _, body) => LoopExact(vars, st, s, own, stored, scope);
    case _ => SimpleExact(vars, st, s, own, stored, scope);
  }

  lemma SimpleExact(vars: set<Id>, st: Statuses, s: Stmt, own: set<Id>, stored: set<Id>, scope: set<Id>)
    requires !s.If? && !s.Loop?
    requires StmtScoped(s, scope) && Ready(vars, st, StmtIds(s), DeclaredBy(s), scope) && Tracks(vars, st, stored)
    ensures StmtUsedOnce(vars, s, own, stored) ==> Tracks(vars, AfterStmt(st, own, s), stored + StoredBy(vars, s))
    ensures !StmtUsedOnce(vars, s, own, stored) ==> SomeInvalid(vars, AfterStmt(st, own, s))
  {
    var now := AfterStmt(st, own, s);
    if StmtUsedOnce(vars, s, own, stored) {
      forall x | x in vars
        ensures TracksAt(now, stored + StoredBy(vars, s), x)
      {
        assert TracksAt(st, stored, x);
      }
    } else {
      var x: Id :| x in vars && (if s.Load? then x == s.src else if s.Store? then x == s.dest else x in Operands(s));
      assert TracksAt(st, stored, x);
      assert IsInvalid(now, x);
    }
  }

  lemma {:induction false} IfExact(vars: set<Id>, st: Statuses, s: Stmt, own: set<Id>, stored: set<Id>, scope: set<Id>)
    requires s.If?
    requires StmtScoped(s, scope) && Ready(vars, st, StmtIds(s), DeclaredBy(s), scope) && Tracks(vars, st, stored)
    ensures StmtUsedOnce(vars, s, own, stored) ==> Tracks(vars, AfterStmt(st, own, s), stored + StoredBy(vars, s))
    ensures !StmtUsedOnce(vars, s, own, stored) ==> SomeInvalid(vars, AfterStmt(st, own, s))
    decreases s, 0
  {
    var c, yes, no := s.cond, s.yes, s.no;
    var st0 := Invalidate(st, {c});
    var st1 := AfterBlock(st0, {}, yes);
    DeclaredIds(yes);
    DeclaredIds(no);
    BlockKeeps(st0, {}, yes);
    BlockKeeps(st1, {}, no);
    if c in vars {
      assert IsInvalid(st0, c);
      assert IsInvalid(st1, c);
      assert IsInvalid(AfterBlock(st1, {}, no), c);
    } else {
      assert Tracks(vars, st0, stored) by {
        forall x | x in vars
          ensures TracksAt(st0, stored, x)
        {
          assert TracksAt(st, stored, x);
        }
      }
      BlockExact(vars, st0, yes, {}, stored, scope);
      if UsedOnce(vars, yes, {}, stored) {
        BlockExact(vars, st1, no, {}, stored + StoredIn(vars, yes), scope);
        assert stored + StoredIn(vars, yes) + StoredIn(vars, no) == stored + StoredBy(vars, s);
      } else {
        var x :| x in vars && IsInvalid(st1, x);
        assert IsInvalid(AfterBlock(st1, {}, no), x);
      }
    }
  }

  lemma {:induction false} LoopExact(vars: set<Id>, st: Statuses, s: Stmt, own: set<Id>, stored: set<Id>,
                                     scope: set<Id>)
    requires s.Loop?
    requires StmtScoped(s, scope) && Ready(vars, st, StmtIds(s), DeclaredBy(s), scope) && Tracks(vars, st, stored)
    ensures StmtUsedOnce(vars, s, own, stored) ==> Tracks(vars, AfterStmt(st, own, s), stored + StoredBy(vars, s))
    ensures !StmtUsedOnce(vars, s, own, stored) ==> SomeInvalid(vars, AfterStmt(st, own, s))
    decreases s, 0
  {
    var st0 := Invalidate(st, Operands(s));
    DeclaredIds(s.body);
    BlockKeeps(st0, {}, s.body);
    if Operands(s) !! vars {
      assert Tracks(vars, st0, stored) by {
        forall x | x in vars
          ensures TracksAt(st0, stored, x)
        {
          assert TracksAt(st, stored, x);
        }
      }
      BlockExact(vars, st0, s.body, {}, stored, scope);
    } else {
      var x :| x in vars && x in Operands(s);
      assert IsInvalid(st0, x);
      assert IsInvalid(AfterBlock(st0, {}, s.body), x);
    }
  }

  /******* The result *******/

  /** The variables that the pass reports for a whole program. */
  function Gathered(b: Block): set<Id> {
    var st := AfterBlock(map[], {}, b);
    set x | x in st && st[x].StoredOnce?
  }

  /** A variable is reported exactly when it is stored, only once, and loaded after that only. */
  lemma GatheredExactly(b: Block, x: Id)
    requires WellScoped(b, {})
    ensures x in Gathered(b) <==> x in Declared(b) && x in StoredIn({x}, b) && UsedOnce({x}, b, {}, {})
  {
    var st := AfterBlock(map[], {}, b);
    BlockKeeps(map[], {}, b);
    if x in Declared(b) {
      BlockExact({x}, map[], b, {}, {}, {});
      if UsedOnce({x}, b, {}, {}) {
        assert TracksAt(st, {} + StoredIn({x}, b), x);
      }
    }
  }

  /** The reported variables together are used once, and each of them is stored. */
  lemma GatheredUsedOnce(b: Block)
    requires WellScoped(b, {})
    ensures UsedOnce(Gathered(b), b, {}, {}) && Gathered(b) <= Declared(b) && StoredIn(Gathered(b), b) == Gathered(b)
  {
    var vars := Gathered(b);
    var st := AfterBlock(map[], {}, b);
    BlockKeeps(map[], {}, b);
    BlockExact(vars, map[], b, {}, {}, {});
    assert !SomeInvalid(vars, st);
    forall x
      ensures x in StoredIn(vars, b) <==> x in vars
    {
      StoredInVars(vars, b);
      if x in vars {
        assert TracksAt(st, {} + StoredIn(vars, b), x);
      }
    }
  }

  lemma {:induction false} StoredInVars(vars: set<Id>, b: Block)
    ensures StoredIn(vars, b) <= vars
    decreases b
  {
    if b.Cons? {
      StoredByVars(vars, b.first);
      StoredInVars(vars, b.rest);
    }
  }

  lemma {:induction false} StoredByVars(vars: set<Id>, s: Stmt)
    ensures StoredBy(vars, s) <= vars
    decreases s
  {
    match s
    case If(_, _, yes, no) =>
      StoredInVars(vars, yes);
      StoredInVars(vars, no);
    case Loop(_, _, body) => StoredInVars(vars, body);
    case _ =>
  }

  /** `run`. */
  method GatherImmutable(b: Block) returns (r: set<Id>)
    requires WellScoped(b, {})
    ensures r == Gathered(b)
    ensures forall x :: x in r <==> x in Declared(b) && x in StoredIn({x}, b) && UsedOnce({x}, b, {}, {})
  {
    var pass := new GatherImmutableLocalVars();
    pass.VisitBlock(b);
    var st := pass.allocaStatus;
    r := set x | x in st && st[x].StoredOnce?;
    forall x
      ensures x in r <==> x in Declared(b) && x in StoredIn({x}, b) && UsedOnce({x}, b, {}, {})
    {
      GatheredExactly(b, x);
    }
  }
}

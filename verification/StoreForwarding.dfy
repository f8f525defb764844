/** The last store to a local variable in a block: what a load after the block would read. */
module StoreForwarding {
  import opened Options
  import opened Ssa

  /******* Is there a store or an atomic? *******/

  predicate BlockModifies(b: Block, x: Id) {
    match b
    case End => false
    case Cons(s, rest) => Modifies(s, x) || BlockModifies(rest, x)
  }

  predicate Modifies(s: Stmt, x: Id) {
    match s
    case Store(_, dest, _, _) => dest == x
    case Atomic(_, dest, _) => dest == x
    case If(_, _, yes, no) => BlockModifies(yes, x) || BlockModifies(no, x)
    case Loop(_, _, body) => BlockModifies(body, x)
    case _ => false
  }

  class LocalStoreSearcher {
    const x: Id
    var result: bool

    constructor (x: Id)
      ensures this.x == x && !result
    {
      this.x, result := x, false;
    }

    method VisitStmt(s: Stmt)
      modifies this
      ensures result == (old(result) || Modifies(s, x))
      decreases s
    {
      match s {
        case Store(_, dest, _, _) =>
          if dest == x {
            result := true;
          }
        case Atomic(_, dest, _) =>
          if dest == x {
            result := true;
          }
        case If(_, _, yes, no) =>
          VisitBlock(yes);
          VisitBlock(no);
        case Loop(_, _, body) => VisitBlock(body);
        case _ =>
      }
    }

    method VisitBlock(b: Block)
      modifies this
      ensures result == (old(result) || BlockModifies(b, x))
      decreases b
    {
      if b.Cons? {
        VisitStmt(b.first);
        VisitBlock(b.rest);
      }
    }
  }

  /** `has_store_or_atomic` for one variable. */
  method HasStoreOrAtomic(s: Stmt, x: Id) returns (r: bool)
    ensures r <==> Modifies(s, x)
  {
    var searcher := new LocalStoreSearcher(x);
    searcher.VisitStmt(s);
    r := searcher.result;
  }

  /******* The forwarder *******/

  datatype Found = Found(valid: bool, last: Option<Stmt>)

  const Nothing := Found(true, None)

  /** What the two branches together do. */
  function Join(f: Found, yes: Found, no: Found): Found {
    if !yes.valid || !no.valid then f.(valid := false)
    else if yes.last.None? && no.last.None? then f
    else if yes.last.None? || no.last.None? then f.(valid := false)
    else if !SameStore(yes.last.value, no.last.value) then f.(valid := false)
    else Found(true, yes.last)
  }

  /** Both are stores of the same value. */
  predicate SameStore(s: Stmt, t: Stmt) {
    s.Store? && t.Store? && s.val == t.val
  }

  function FindInStmt(x: Id, s: Stmt, f: Found): Found
    decreases s
  {
    match s
    case Store(_, dest, _, _) => if dest == x then Found(true, Some(s)) else f
    case Alloca(id) => if id == x then Found(true, Some(s)) else f
    case Atomic(_, dest, _) => if dest == x then f.(valid := false) else f
    case If(_, _, yes, no) => Join(f, FindInBlock(x, yes, Nothing), FindInBlock(x, no, Nothing))
    case Loop(_, _, _) => if Modifies(s, x) then f.(valid := false) else f
    case _ => f
  }

  function FindInBlock(x: Id, b: Block, f: Found): Found
    decreases b
  {
    match b
    case End => f
    case Cons(s, rest) => FindInBlock(x, rest, FindInStmt(x, s, f))
  }

  class LocalStoreForwarder {
    const x: Id
    var isValid: bool
    var result: Option<Stmt>

    constructor (x: Id)
      ensures this.x == x && Current() == Nothing
    {
      this.x, isValid, result := x, true, None;
    }

    function Current(): Found
      reads this
    {
      Found(isValid, result)
    }

    method VisitIf(s: Stmt)
      requires s.If?
      modifies this
      ensures Current() == FindInStmt(x, s, old(Current()))
      decreases s, 0
    {
      var onYes := new LocalStoreForwarder(x);
      onYes.VisitBlock(s.yes);
      var onNo := new LocalStoreForwarder(x);
      onNo.VisitBlock(s.no);
      if !onYes.isValid || !onNo.isValid {
        isValid := false;
      } else if onYes.result.None? && onNo.result.None? {
        return;
      } else if onYes.result.None? || onNo.result.None? {
        isValid := false;
      } else if !SameStore(onYes.result.value, onNo.result.value) {
        isValid := false;
      } else {
        isValid := true;
        result := onYes.result;
      }
    }

    method VisitStmt(s: Stmt)
      modifies this
      ensures Current() == FindInStmt(x, s, old(Current()))
      decreases s, 1
    {
      match s {
        case Store(_, dest, _, _) =>
          if dest == x {
            isValid := true;
            result := Some(s);
          }
        case Alloca(id) =>
          if id == x {
            isValid := true;
            result := Some(s);
          }
        case Atomic(_, dest, _) =>
          if dest == x {
            isValid := false;
          }
        case If(_, _, _, _) => VisitIf(s);
        case Loop(_, _, _) =>
          var modified := HasStoreOrAtomic(s, x);
          if modified {
            isValid := false;
          }
        case _ =>
      }
    }

    method VisitBlock(b: Block)
      modifies this
      ensures Current() == FindInBlock(x, b, old(Current()))
      decreases b, 2
    {
      if b.Cons? {
        VisitStmt(b.first);
        VisitBlock(b.rest);
      }
    }
  }

  /** `last_store_or_atomic`. */
  method LastStoreOrAtomic(b: Block, x: Id) returns (valid: bool, last: Option<Stmt>)
    ensures Found(valid, last) == FindInBlock(x, b, Nothing)
    ensures InView(b, x) && valid && last.Some? ==> EndsIn(b, x, last.value)
    ensures InView(b, x) ==> forall s | EndsIn(b, x, s) :: valid && last == Some(s)
    ensures InView(b, x) ==> (valid && last == None <==> !BlockModifies(b, x) && x !in Declared(b))
    ensures !BlockModifies(b, x) && x !in Declared(b) ==> valid && last == None
  {
    var searcher := new LocalStoreForwarder(x);
    searcher.VisitBlock(b);
    valid, last := searcher.isValid, searcher.result;
    if !BlockModifies(b, x) && x !in Declared(b) {
      UnmodifiedFinds(x, b, Nothing);
    } else if InView(b, x) {
      NothingExactly(x, b);
    }
    if InView(b, x) {
      forall s
        ensures Found(valid, last) == Found(true, Some(s)) <==> EndsIn(b, x, s)
      {
        FoundExactly(x, b, s);
      }
    }
  }

  /******* Which statement is found *******/

  /** The code after which the variable is what it was. */
  predicate Leaves(b: Block, x: Id) {
    !BlockModifies(b, x) && x !in Declared(b)
  }

  /** The last thing that every way through the block does to the variable is what `s` says: `s` itself, or
      stores of the value of `s` in both branches of an `if`, the first of which is `s`. */
  ghost predicate EndsIn(b: Block, x: Id, s: Stmt)
    decreases b
  {
    match b
    case End => false
    case Cons(first, rest) => EndsIn(rest, x, s) || (Leaves(rest, x) && StmtEndsIn(first, x, s))
  }

  ghost predicate StmtEndsIn(st: Stmt, x: Id, s: Stmt)
    decreases st
  {
    match st
    case Store(_, dest, _, _) => dest == x && s == st
    case Alloca(id) => id == x && s == st
    case If(_, _, yes, no) =>
      s.Store? && EndsIn(yes, x, s) && exists t: Stmt :: EndsIn(no, x, t) && t.Store? && t.val == s.val
    case _ => false
  }

  /** A valid statement is found if and only if the block ends in it. */
  lemma {:induction false} FoundExactly(x: Id, b: Block, s: Stmt)
    requires InView(b, x)
    ensures FindInBlock(x, b, Nothing) == Found(true, Some(s)) <==> EndsIn(b, x, s)
    decreases b, 1
  {
    FoundFrom(x, b, Nothing, s);
    if Leaves(b, x) {
      UnmodifiedFinds(x, b, Nothing);
      LeavesEndsInNothing(x, b, s);
    }
  }

  lemma {:induction false} LeavesEndsInNothing(x: Id, b: Block, s: Stmt)
    requires Leaves(b, x)
    ensures !EndsIn(b, x, s)
    decreases b
  {
    if b.Cons? {
      var st := b.first;
      assert !Modifies(st, x) && x !in DeclaredBy(st);
      if st.If? {
        LeavesEndsInNothing(x, st.yes, s);
      }
      LeavesEndsInNothing(x, b.rest, s);
    }
  }

  /** From any answer before the block: what touches the variable last decides. */
  lemma {:induction false} FoundFrom(x: Id, b: Block, f: Found, s: Stmt)
    requires InView(b, x)
    ensures !Leaves(b, x) ==> (FindInBlock(x, b, f) == Found(true, Some(s)) <==> EndsIn(b, x, s))
    decreases b, 0
  {
    if b.Cons? {
      var st, rest := b.first, b.rest;
      if Leaves(rest, x) {
        UnmodifiedFinds(x, rest, FindInStmt(x, st, f));
        LeavesEndsInNothing(x, rest, s);
        if !Leaves(b, x) {
          StmtFoundFrom(x, st, f, s);
        }
      } else {
        FoundFrom(x, rest, FindInStmt(x, st, f), s);
      }
    }
  }

  lemma {:induction false} StmtFoundFrom(x: Id, st: Stmt, f: Found, s: Stmt)
    requires (x in DeclaredBy(st) ==> st.Alloca?) && (Modifies(st, x) || x in DeclaredBy(st))
    ensures FindInStmt(x, st, f) == Found(true, Some(s)) <==> StmtEndsIn(st, x, s)
    decreases st
  {
    if st.If? {
      var y, n := FindInBlock(x, st.yes, Nothing), FindInBlock(x, st.no, Nothing);
      NotDeclaredInView(st.yes, x);
      NotDeclaredInView(st.no, x);
      NothingExactly(x, st.yes);
      NothingExactly(x, st.no);
      FoundExactly(x, st.yes, s);
      forall t
        ensures n == Found(true, Some(t)) <==> EndsIn(st.no, x, t)
      {
        FoundExactly(x, st.no, t);
      }
      if y.last.Some? {
        FoundExactly(x, st.yes, y.last.value);
      }
    }
  }

  /** One block behind another. */
  function Append(b: Block, c: Block): Block {
    match b
    case End => c
    case Cons(s, rest) => Cons(s, Append(rest, c))
  }

  lemma {:induction false} AppendFinds(x: Id, b: Block, c: Block, f: Found)
    ensures FindInBlock(x, Append(b, c), f) == FindInBlock(x, c, FindInBlock(x, b, f))
    decreases b
  {
    if b.Cons? {
      AppendFinds(x, b.rest, c, FindInStmt(x, b.first, f));
    }
  }

  /** A store to the variable, or its declaration, that only code follows which leaves the variable alone is
      the answer. */
  lemma LastStoreFound(x: Id, before: Block, s: Stmt, rest: Block)
    requires Leaves(rest, x) && ((s.Store? && s.dest == x) || s == Alloca(x))
    ensures FindInBlock(x, Append(before, Cons(s, rest)), Nothing) == Found(true, Some(s))
  {
    AppendFinds(x, before, Cons(s, rest), Nothing);
    UnmodifiedFinds(x, rest, Found(true, Some(s)));
  }

  /** So is the store in the first branch of an `if` that stores the same value in both. */
  lemma LastIfFound(x: Id, before: Block, s: Stmt, rest: Block, y: Stmt, n: Stmt)
    requires Leaves(rest, x) && s.If? && x !in DeclaredBy(s) && EndsIn(s.yes, x, y) && EndsIn(s.no, x, n)
    requires y.Store? && n.Store? && y.val == n.val
    ensures FindInBlock(x, Append(before, Cons(s, rest)), Nothing) == Found(true, Some(y))
  {
    AppendFinds(x, before, Cons(s, rest), Nothing);
    NotDeclaredInView(s.yes, x);
    NotDeclaredInView(s.no, x);
    FoundExactly(x, s.yes, y);
    FoundExactly(x, s.no, n);
    UnmodifiedFinds(x, rest, Found(true, Some(y)));
  }

  /** All else that touches the variable last leaves no valid answer: an atomic, a loop, or an `if` whose
      branches do not store the same value. */
  lemma LastUnclear(x: Id, before: Block, s: Stmt, rest: Block)
    requires Leaves(rest, x) && Modifies(s, x) && x !in DeclaredBy(s)
    requires s.Atomic? || s.Loop? || (s.If? && forall y :: !StmtEndsIn(s, x, y))
    ensures !FindInBlock(x, Append(before, Cons(s, rest)), Nothing).valid
  {
    AppendFinds(x, before, Cons(s, rest), Nothing);
    var f := FindInBlock(x, before, Nothing);
    if s.If? {
      NotDeclaredInView(s.yes, x);
      NotDeclaredInView(s.no, x);
      NothingExactly(x, s.yes);
      NothingExactly(x, s.no);
      var g := FindInStmt(x, s, f);
      if g.valid {
        StmtFoundFrom(x, s, f, FindInBlock(x, s.yes, Nothing).last.value);
      }
    }
    UnmodifiedFinds(x, rest, FindInStmt(x, s, f));
  }

  /** Code that does not modify the variable does not change the answer, so that the answer after a
      store followed by such code is the store. */
  lemma {:induction false} UnmodifiedFinds(x: Id, b: Block, f: Found)
    requires !BlockModifies(b, x) && x !in Declared(b)
    ensures FindInBlock(x, b, f) == f
    decreases b
  {
    if b.Cons? {
      if b.first.If? {
        UnmodifiedFinds(x, b.first.yes, Nothing);
        UnmodifiedFinds(x, b.first.no, Nothing);
      }
      UnmodifiedFinds(x, b.rest, f);
    }
  }

  /** Once there is an answer, or no valid one, "valid, without a statement" does not come back. */
  lemma {:induction false} SomethingStays(x: Id, b: Block, f: Found)
    requires f != Nothing
    ensures FindInBlock(x, b, f) != Nothing
    decreases b
  {
    if b.Cons? {
      SomethingStays(x, b.rest, FindInStmt(x, b.first, f));
    }
  }

  /** For a variable in view, that answer is given if and only if the block neither modifies nor declares it. */
  lemma {:induction false} NothingExactly(x: Id, b: Block)
    requires InView(b, x)
    ensures FindInBlock(x, b, Nothing) == Nothing <==> !BlockModifies(b, x) && x !in Declared(b)
    decreases b
  {
    if b.Cons? {
      var s := b.first;
      if s.If? {
        NotDeclaredInView(s.yes, x);
        NotDeclaredInView(s.no, x);
        NothingExactly(x, s.yes);
        NothingExactly(x, s.no);
      }
      if FindInStmt(x, s, Nothing) == Nothing {
        NothingExactly(x, b.rest);
      } else {
        SomethingStays(x, b.rest, FindInStmt(x, s, Nothing));
      }
    }
  }

  /******* What a run leaves unchanged *******/

  /** Between the states, only statements in `ids` got values, and `x` kept its value if `same`. */
  ghost predicate Frame(ids: set<Id>, x: Id, same: bool, s: State, t: State) {
    && (forall a | a !in ids :: (a in s.env <==> a in t.env) && Val(s.env, a) == Val(t.env, a))
    && (same ==> Val(s.mem, x) == Val(t.mem, x))
  }

  lemma {:induction false} BlockFrame(m: Machine, b: Block, x: Id, st: State, fuel: nat)
    ensures ExecBlock(m, b, st, fuel).Done? ==>
              Frame(BlockIds(b), x, !BlockModifies(b, x) && x !in Declared(b), st, ExecBlock(m, b, st, fuel).state)
    decreases fuel, b
  {
    if b.Cons? {
      StmtFrame(m, b.first, x, st, fuel);
      var o := ExecStmt(m, b.first, st, fuel);
      if o.Done? && o.exit.Fell? {
        BlockFrame(m, b.rest, x, o.state, fuel);
      }
    }
  }

  lemma {:induction false} StmtFrame(m: Machine, s: Stmt, x: Id, st: State, fuel: nat)
    ensures ExecStmt(m, s, st, fuel).Done? ==>
              Frame(StmtIds(s), x, !Modifies(s, x) && x !in DeclaredBy(s), st, ExecStmt(m, s, st, fuel).state)
    decreases fuel, s
  {
    match s
    case If(_, c, yes, no) =>
      if m.truth(Val(st.env, c)) {
        BlockFrame(m, yes, x, st, fuel);
      } else {
        BlockFrame(m, no, x, st, fuel);
      }
    case Loop(id, ops, body) => LoopFrame(m, id, Vals(st.env, ops), body, x, st, fuel);
    case _ =>
  }

  lemma {:induction false} LoopFrame(m: Machine, id: Id, vals: seq<int>, body: Block, x: Id, st: State, fuel: nat)
    ensures ExecLoop(m, id, vals, body, st, fuel).Done? ==>
              Frame(BlockIds(body), x, !BlockModifies(body, x) && x !in Declared(body), st,
                    ExecLoop(m, id, vals, body, st, fuel).state)
    decreases fuel, body, 1
  {
    var r := m.again(id, vals, st.world);
    if r.0 && fuel > 0 {
      var entered := st.(world := r.1);
      BlockFrame(m, body, x, entered, fuel - 1);
      var o := ExecBlock(m, body, entered, fuel - 1);
      if o.Done? && !o.exit.Broke? {
        LoopFrame(m, id, vals, body, x, o.state, fuel - 1);
      }
    }
  }

  /******* What the answer means *******/

  /** Whether a store converts depends on the variable and the value only. */
  predicate Typed(types: (Id, Id) -> bool, b: Block) {
    match b
    case End => true
    case Cons(s, rest) => StmtTyped(types, s) && Typed(types, rest)
  }

  predicate StmtTyped(types: (Id, Id) -> bool, s: Stmt) {
    match s
    case Store(_, x, v, sameType) => sameType == types(x, v)
    case If(_, _, yes, no) => Typed(types, yes) && Typed(types, no)
    case Loop(_, _, body) => Typed(types, body)
    case _ => true
  }

  /** If valid, the variable holds what the found statement put there, or its first value `x0`. */
  ghost predicate Holds(m: Machine, types: (Id, Id) -> bool, x: Id, scope: set<Id>, f: Found, x0: int, st: State) {
    f.valid ==>
      match f.last
      case None => Val(st.mem, x) == x0
      case Some(Store(_, dest, v, sameType)) =>
        && dest == x && v in scope && sameType == types(x, v)
        && Val(st.mem, x) == if sameType then Val(st.env, v) else m.cast(x, Val(st.env, v))
      case Some(Alloca(id)) => id == x && Val(st.mem, x) == 0
      case _ => false
  }

  /** The variable is declared outside, or by the block itself. */
  predicate InView(b: Block, x: Id) {
    match b
    case End => true
    case Cons(s, rest) => (x in DeclaredBy(s) ==> s.Alloca?) && InView(rest, x)
  }

  lemma KeepsHolding(m: Machine, types: (Id, Id) -> bool, x: Id, scope: set<Id>, more: set<Id>, f: Found, x0: int,
                     ids: set<Id>, s: State, t: State)
    requires Holds(m, types, x, scope, f, x0, s) && Frame(ids, x, true, s, t) && ids !! scope
    ensures Holds(m, types, x, scope + more, f, x0, t)
  {
  }

  lemma {:induction false} BlockHolds(m: Machine, types: (Id, Id) -> bool, b: Block, x: Id, scope: set<Id>, f: Found,
                                      x0: int, st: State, fuel: nat)
    requires WellScoped(b, scope) && Typed(types, b) && InView(b, x) && x in m.direct
             && Holds(m, types, x, scope, f, x0, st)
    ensures var o := ExecBlock(m, b, st, fuel);
            o.Done? && o.exit.Fell? ==> Holds(m, types, x, scope + BlockIds(b), FindInBlock(x, b, f), x0, o.state)
    decreases fuel, b
  {
    if b.Cons? {
      var s, rest := b.first, b.rest;
      StmtHolds(m, types, s, x, scope, f, x0, st, fuel);
      var o := ExecStmt(m, s, st, fuel);
      if o.Done? && o.exit.Fell? {
        var g := FindInStmt(x, s, f);
        BlockHolds(m, types, rest, x, scope + Defines(s), g, x0, o.state, fuel);
        var p := ExecBlock(m, rest, o.state, fuel);
        if p.Done? && p.exit.Fell? {
          Widen(m, types, x, scope + Defines(s) + BlockIds(rest), scope + BlockIds(b), FindInBlock(x, rest, g), x0,
                p.state);
        }
      }
    }
  }

  lemma Widen(m: Machine, types: (Id, Id) -> bool, x: Id, scope: set<Id>, more: set<Id>, f: Found, x0: int, st: State)
    requires Holds(m, types, x, scope, f, x0, st) && scope <= more
    ensures Holds(m, types, x, more, f, x0, st)
  {
  }

  lemma {:induction false} StmtHolds(m: Machine, types: (Id, Id) -> bool, s: Stmt, x: Id, scope: set<Id>, f: Found,
                                     x0: int, st: State, fuel: nat)
    requires StmtScoped(s, scope) && StmtTyped(types, s) && (x in DeclaredBy(s) ==> s.Alloca?) && x in m.direct
    requires Holds(m, types, x, scope, f, x0, st)
    ensures var o := ExecStmt(m, s, st, fuel);
            o.Done? && o.exit.Fell? ==> Holds(m, types, x, scope + Defines(s), FindInStmt(x, s, f), x0, o.state)
    decreases fuel, s
  {
    var o := ExecStmt(m, s, st, fuel);
    if o.Done? && o.exit.Fell? {
      StmtFrame(m, s, x, st, fuel);
      if !Modifies(s, x) && x !in DeclaredBy(s) {
        KeepsHolding(m, types, x, scope, Defines(s), f, x0, StmtIds(s), st, o.state);
        if s.If? {
          UnmodifiedFinds(x, s.yes, Nothing);
          UnmodifiedFinds(x, s.no, Nothing);
        }
      } else if s.If? {
        IfHolds(m, types, s, x, scope, f, x0, st, fuel);
      }
    }
  }

  lemma {:induction false} IfHolds(m: Machine, types: (Id, Id) -> bool, s: Stmt, x: Id, scope: set<Id>, f: Found,
                                   x0: int, st: State, fuel: nat)
    requires s.If? && StmtScoped(s, scope) && StmtTyped(types, s) && x !in DeclaredBy(s) && x in m.direct
    requires Holds(m, types, x, scope, f, x0, st)
    ensures var o := ExecStmt(m, s, st, fuel);
            o.Done? && o.exit.Fell? ==> Holds(m, types, x, scope, FindInStmt(x, s, f), x0, o.state)
    decreases fuel, s, 0
  {
    var y, n := FindInBlock(x, s.yes, Nothing), FindInBlock(x, s.no, Nothing);
    var o := ExecStmt(m, s, st, fuel);
    NotDeclaredInView(s.yes, x);
    NotDeclaredInView(s.no, x);
    BlockHolds(m, types, s.yes, x, scope, Nothing, Val(st.mem, x), st, fuel);
    BlockHolds(m, types, s.no, x, scope, Nothing, Val(st.mem, x), st, fuel);
    FoundShape(types, x, s.yes, scope);
    FoundShape(types, x, s.no, scope);
    if o.Done? && o.exit.Fell? && y.valid && n.valid && y.last.None? && n.last.None? {
      StmtFrame(m, s, x, st, fuel);
      assert Val(o.state.mem, x) == Val(st.mem, x);
      KeepsHolding(m, types, x, scope, {}, f, x0, StmtIds(s), st, o.state);
      assert scope + {} == scope;
    }
  }

  lemma {:induction false} NotDeclaredInView(b: Block, x: Id)
    requires x !in Declared(b)
    ensures InView(b, x)
  {
    if b.Cons? {
      NotDeclaredInView(b.rest, x);
    }
  }

  /** The last store found is a store to the variable, of a value that is computed in the block or
      before. In particular, the assertions about branches never fail. */
  lemma {:induction false} FoundShape(types: (Id, Id) -> bool, x: Id, b: Block, scope: set<Id>)
    requires WellScoped(b, scope) && Typed(types, b) && x !in Declared(b)
    ensures ShapeOf(types, x, scope + BlockIds(b), FindInBlock(x, b, Nothing).last)
    decreases b, 1
  {
    FoundShapeFrom(types, x, b, scope, Nothing);
  }

  ghost predicate ShapeOf(types: (Id, Id) -> bool, x: Id, scope: set<Id>, last: Option<Stmt>) {
    last.Some? ==>
      last.value.Store? && last.value.dest == x && last.value.val in scope
      && last.value.sameType == types(x, last.value.val)
  }

  lemma {:induction false} FoundShapeFrom(types: (Id, Id) -> bool, x: Id, b: Block, scope: set<Id>, f: Found)
    requires WellScoped(b, scope) && Typed(types, b) && x !in Declared(b) && ShapeOf(types, x, scope, f.last)
    ensures ShapeOf(types, x, scope + BlockIds(b), FindInBlock(x, b, f).last)
    decreases b, 0
  {
    if b.Cons? {
      var s := b.first;
      if s.If? {
        FoundShape(types, x, s.yes, scope);
        FoundShape(types, x, s.no, scope);
      }
      FoundShapeFrom(types, x, b.rest, scope + Defines(s), FindInStmt(x, s, f));
    }
  }

  /** A valid answer without a statement means that every run of the block that ends, however it leaves the
      block, leaves the variable unchanged. Whenever the block is run to its end, a valid store is what the
      variable holds, and with a valid declaration it is zero. */
  lemma ForwarderSound(m: Machine, types: (Id, Id) -> bool, b: Block, x: Id, scope: set<Id>, st: State, fuel: nat)
    requires WellScoped(b, scope) && Typed(types, b) && InView(b, x) && x in m.direct
    ensures var o := ExecBlock(m, b, st, fuel);
            o.Done? && FindInBlock(x, b, Nothing) == Nothing ==> Val(o.state.mem, x) == Val(st.mem, x)
    ensures var o := ExecBlock(m, b, st, fuel);
            var f := FindInBlock(x, b, Nothing);
            o.Done? && o.exit.Fell? && f.valid ==>
              && (f.last.Some? && f.last.value.Store? && f.last.value.sameType ==>
                  Val(o.state.mem, x) == Val(o.state.env, f.last.value.val))
              && (f.last.Some? && f.last.value.Store? && !f.last.value.sameType ==>
                  Val(o.state.mem, x) == m.cast(x, Val(o.state.env, f.last.value.val)))
              && (f.last.Some? && !f.last.value.Store? ==> f.last.value == Alloca(x) && Val(o.state.mem, x) == 0)
  {
    NothingExactly(x, b);
    BlockFrame(m, b, x, st, fuel);
    BlockHolds(m, types, b, x, scope, Nothing, Val(st.mem, x), st, fuel);
  }
}

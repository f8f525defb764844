/**
 The removal of immutable local variables: declarations, stores and loads of them go, and what was
 loaded is replaced by what was stored. The shorter program does the same.
 */
module EliminateLocals {
  import opened Ssa
  import opened ImmutableLocals

  /** The stored value of each removed variable, and what replaces each removed load. */
  datatype Sub = Sub(values: map<Id, Id>, replaced: map<Id, Id>)

  function Rename(sub: Sub, a: Id): Id {
    if a in sub.replaced then sub.replaced[a] else a
  }

  function RenameAll(sub: Sub, ids: seq<Id>): (r: seq<Id>)
    ensures |r| == |ids| && forall i | 0 <= i < |ids| :: r[i] == Rename(sub, ids[i])
  {
    seq(|ids|, i requires 0 <= i < |ids| => Rename(sub, ids[i]))
  }

  /******* The pass *******/

  datatype Kept = Erased | Kept(stmt: Stmt)

  function Prepend(k: Kept, b: Block): Block {
    if k.Erased? then b else Cons(k.stmt, b)
  }

  /** A statement with the replacements made so far, and the replacements after it. */
  function ElimStmt(imm: set<Id>, s: Stmt, sub: Sub): (Kept, Sub)
    decreases s
  {
    match s
    case Alloca(x) => (if x in imm then Erased else Kept(s), sub)
    case Load(id, x) =>
      if x in imm then (Erased, sub.(replaced := sub.replaced[id := if x in sub.values then sub.values[x] else id]))
      else (Kept(Load(id, Rename(sub, x))), sub)
    case Store(id, x, v, sameType) =>
      if x in imm then (Erased, sub.(values := sub.values[x := Rename(sub, v)]))
      else (Kept(Store(id, Rename(sub, x), Rename(sub, v), sameType)), sub)
    case Atomic(id, x, v) => (Kept(Atomic(id, Rename(sub, x), Rename(sub, v))), sub)
    case Op(id, pure, ops) => (Kept(Op(id, pure, RenameAll(sub, ops))), sub)
    case If(id, c, yes, no) =>
      var y := ElimBlock(imm, yes, sub);
      var n := ElimBlock(imm, no, y.1);
      (Kept(If(id, Rename(sub, c), y.0, n.0)), n.1)
    case Loop(id, ops, body) =>
      var r := ElimBlock(imm, body, sub);
      (Kept(Loop(id, RenameAll(sub, ops), r.0)), r.1)
    case Continue(_) => (Kept(s), sub)
    case WhileControl(id, c) => (Kept(WhileControl(id, Rename(sub, c))), sub)
  }

  function ElimBlock(imm: set<Id>, b: Block, sub: Sub): (Block, Sub)
    decreases b
  {
    match b
    case End => (End, sub)
    case Cons(s, rest) =>
      var first := ElimStmt(imm, s, sub);
      var others := ElimBlock(imm, rest, first.1);
      (Prepend(first.0, others.0), others.1)
  }

  /** The loads of a block, nested blocks included. */
  function Loads(b: Block): set<Id> {
    match b
    case End => {}
    case Cons(s, rest) => LoadsOf(s) + Loads(rest)
  }

  function LoadsOf(s: Stmt): set<Id> {
    match s
    case Load(id, _) => {id}
    case If(_, _, yes, no) => Loads(yes) + Loads(no)
    case Loop(_, _, body) => Loads(body)
    case _ => {}
  }

  /** No load or store takes its address from one of `loads`; the IR verifier admits variables and pointers
      into matrices only. */
  predicate Addressed(loads: set<Id>, b: Block) {
    match b
    case End => true
    case Cons(s, rest) => StmtAddressed(loads, s) && Addressed(loads, rest)
  }

  predicate StmtAddressed(loads: set<Id>, s: Stmt) {
    match s
    case Load(_, x) => x !in loads
    case Store(_, x, _, _) => x !in loads
    case If(_, _, yes, no) => Addressed(loads, yes) && Addressed(loads, no)
    case Loop(_, _, body) => Addressed(loads, body)
    case _ => true
  }

  /** Usages are replaced in place before a statement is visited, so the operands that the visits test are
      the replaced ones. */
  class EliminateImmutableLocalVars {
    const immutable: set<Id>
    var toValue: map<Id, Id>
    var replaced: map<Id, Id>

    constructor (immutable: set<Id>)
      ensures this.immutable == immutable && Replacements() == Sub(map[], map[])
    {
      this.immutable, toValue, replaced := immutable, map[], map[];
    }

    function Replacements(): Sub
      reads this
    {
      Sub(toValue, replaced)
    }

    method VisitStmt(s: Stmt, ghost loads: set<Id>) returns (k: Kept)
      requires replaced.Keys <= loads && LoadsOf(s) <= loads && StmtAddressed(loads, s)
      modifies `toValue, `replaced
      ensures (k, Replacements()) == ElimStmt(immutable, s, old(Replacements())) && replaced.Keys <= loads
      decreases s
    {
      k := Kept(s);
      match s {
        case Alloca(x) =>
          if x in immutable {
            k := Erased;
          }
        case Load(id, _) =>
          var src := Rename(Replacements(), s.src);
          if src in immutable {
            replaced := replaced[id := if src in toValue then toValue[src] else id];
            k := Erased;
          } else {
            k := Kept(Load(id, src));
          }
        case Store(id, _, _, sameType) =>
          var dest, val := Rename(Replacements(), s.dest), Rename(Replacements(), s.val);
          if dest in immutable {
            toValue := toValue[dest := val];
            k := Erased;
          } else {
            k := Kept(Store(id, dest, val, sameType));
          }
        case Atomic(id, x, v) => k := Kept(Atomic(id, Rename(Replacements(), x), Rename(Replacements(), v)));
        case Op(id, pure, ops) => k := Kept(Op(id, pure, RenameAll(Replacements(), ops)));
        case If(id, c, yes, no) =>
          var cond := Rename(Replacements(), c);
          var y := VisitBlock(yes, loads);
          var n := VisitBlock(no, loads);
          k := Kept(If(id, cond, y, n));
        case Loop(id, ops, body) =>
          var renamed := RenameAll(Replacements(), ops);
          var r := VisitBlock(body, loads);
          k := Kept(Loop(id, renamed, r));
        case Continue(_) =>
        case WhileControl(id, c) => k := Kept(WhileControl(id, Rename(Replacements(), c)));
      }
    }

    method VisitBlock(b: Block, ghost loads: set<Id>) returns (r: Block)
      requires replaced.Keys <= loads && Loads(b) <= loads && Addressed(loads, b)
      modifies `toValue, `replaced
      ensures (r, Replacements()) == ElimBlock(immutable, b, old(Replacements())) && replaced.Keys <= loads
      decreases b
    {
      match b {
        case End => r := End;
        case Cons(s, rest) =>
          var k := VisitStmt(s, loads);
          var others := VisitBlock(rest, loads);
          r := Prepend(k, others);
      }
    }
  }

  /******* What the replacements are *******/

  /** The variables are accessed by loads, stores and atomics only; in particular, none of them is
      itself stored somewhere. */
  predicate DirectOnly(vars: set<Id>, b: Block) {
    match b
    case End => true
    case Cons(s, rest) => StmtDirectOnly(vars, s) && DirectOnly(vars, rest)
  }

  predicate StmtDirectOnly(vars: set<Id>, s: Stmt) {
    match s
    case Load(_, _) => true
    case Store(_, _, v, _) => v !in vars
    case Atomic(_, _, v) => v !in vars
    case If(_, c, yes, no) => c !in vars && DirectOnly(vars, yes) && DirectOnly(vars, no)
    case Loop(_, _, body) => Operands(s) !! vars && DirectOnly(vars, body)
    case _ => Operands(s) !! vars
  }

  /** A variable is stored in its own block, and not twice. */
  lemma {:induction false} StoredOwn(vars: set<Id>, b: Block, own: set<Id>, stored: set<Id>)
    requires UsedOnce(vars, b, own, stored)
    ensures StoredIn(vars, b) <= own + Declared(b) && StoredIn(vars, b) !! stored
    decreases b
  {
    if b.Cons? {
      StmtStoredOwn(vars, b.first, own, stored);
      StoredOwn(vars, b.rest, own + Declares(b.first), stored + StoredBy(vars, b.first));
    }
  }

  lemma {:induction false} StmtStoredOwn(vars: set<Id>, s: Stmt, own: set<Id>, stored: set<Id>)
    requires StmtUsedOnce(vars, s, own, stored)
    ensures StoredBy(vars, s) <= own + DeclaredBy(s) && StoredBy(vars, s) !! stored
    decreases s
  {
    match s
    case If(_, _, yes, no) =>
      StoredOwn(vars, yes, {}, stored);
      StoredOwn(vars, no, {}, stored + StoredIn(vars, yes));
    case Loop(_, _, body) => StoredOwn(vars, body, {}, stored);
    case _ =>
  }

  /** `after` extends `before` by the variables in `stored`, and by replacements of statements in `ids`. */
  ghost predicate Extends(before: Sub, after: Sub, stored: set<Id>, ids: set<Id>) {
    && after.values.Keys == before.values.Keys + stored
    && after.replaced.Keys <= before.replaced.Keys + ids
    && (forall x | x in before.values :: after.values[x] == before.values[x])
    && (forall a | a in before.replaced :: a in after.replaced && after.replaced[a] == before.replaced[a])
  }

  lemma {:induction false} ElimExtends(imm: set<Id>, b: Block, own: set<Id>, sub: Sub)
    requires UsedOnce(imm, b, own, sub.values.Keys) && sub.replaced.Keys !! BlockIds(b) && DistinctIds(b)
    ensures Extends(sub, ElimBlock(imm, b, sub).1, StoredIn(imm, b), BlockIds(b))
    decreases b
  {
    if b.Cons? {
      var mid := ElimStmt(imm, b.first, sub).1;
      StmtExtends(imm, b.first, own, sub);
      ElimExtends(imm, b.rest, own + Declares(b.first), mid);
    }
  }

  lemma {:induction false} StmtExtends(imm: set<Id>, s: Stmt, own: set<Id>, sub: Sub)
    requires StmtUsedOnce(imm, s, own, sub.values.Keys) && sub.replaced.Keys !! StmtIds(s) && StmtDistinctIds(s)
    ensures Extends(sub, ElimStmt(imm, s, sub).1, StoredBy(imm, s), StmtIds(s))
    decreases s
  {
    match s
    case If(_, _, yes, no) =>
      ElimExtends(imm, yes, {}, sub);
      ElimExtends(imm, no, {}, ElimBlock(imm, yes, sub).1);
    case Loop(_, _, body) => ElimExtends(imm, body, {}, sub);
    case _ =>
  }

  /** All statements have different numbers. */
  predicate DistinctIds(b: Block) {
    match b
    case End => true
    case Cons(s, rest) => StmtDistinctIds(s) && DistinctIds(rest) && StmtIds(s) !! BlockIds(rest)
  }

  predicate StmtDistinctIds(s: Stmt) {
    match s
    case If(id, _, yes, no) => DistinctIds(yes) && DistinctIds(no) && BlockIds(yes) !! BlockIds(no)
    case Loop(id, _, body) => DistinctIds(body)
    case _ => true
  }

  lemma {:induction false} ScopedDistinct(b: Block, scope: set<Id>)
    requires WellScoped(b, scope)
    ensures DistinctIds(b)
    decreases b
  {
    if b.Cons? {
      StmtScopedDistinct(b.first, scope);
      ScopedDistinct(b.rest, scope + Defines(b.first));
    }
  }

  lemma {:induction false} StmtScopedDistinct(s: Stmt, scope: set<Id>)
    requires StmtScoped(s, scope)
    ensures StmtDistinctIds(s)
    decreases s
  {
    match s
    case If(_, _, yes, no) =>
      ScopedDistinct(yes, scope);
      ScopedDistinct(no, scope);
    case Loop(_, _, body) => ScopedDistinct(body, scope);
    case _ =>
  }

  /******* What is left *******/

  /** The declarations of the variables in `imm`, the loads from them and the stores to them. */
  function ErasedIn(imm: set<Id>, b: Block): set<Id> {
    match b
    case End => {}
    case Cons(s, rest) => ErasedBy(imm, s) + ErasedIn(imm, rest)
  }

  function ErasedBy(imm: set<Id>, s: Stmt): set<Id> {
    match s
    case Alloca(x) => if x in imm then {x} else {}
    case Load(id, x) => if x in imm then {id} else {}
    case Store(id, x, _, _) => if x in imm then {id} else {}
    case If(_, _, yes, no) => ErasedIn(imm, yes) + ErasedIn(imm, no)
    case Loop(_, _, body) => ErasedIn(imm, body)
    case _ => {}
  }

  lemma {:induction false} ErasedIds(imm: set<Id>, b: Block)
    ensures ErasedIn(imm, b) <= BlockIds(b)
    decreases b
  {
    if b.Cons? {
      ErasedIds(imm, b.rest);
      match b.first
      case If(_, _, yes, no) =>
        ErasedIds(imm, yes);
        ErasedIds(imm, no);
      case Loop(_, _, body) => ErasedIds(imm, body);
      case _ =>
    }
  }

  /** All other statements are left, and only they. */
  lemma {:induction false} LeftIds(imm: set<Id>, b: Block, scope: set<Id>, sub: Sub)
    requires WellScoped(b, scope)
    ensures BlockIds(ElimBlock(imm, b, sub).0) == BlockIds(b) - ErasedIn(imm, b)
    decreases b
  {
    if b.Cons? {
      var s := b.first;
      StmtLeftIds(imm, s, scope, sub);
      LeftIds(imm, b.rest, scope + Defines(s), ElimStmt(imm, s, sub).1);
      ErasedIds(imm, b.rest);
      ErasedIds(imm, Cons(s, End));
    }
  }

  lemma {:induction false} StmtLeftIds(imm: set<Id>, s: Stmt, scope: set<Id>, sub: Sub)
    requires StmtScoped(s, scope)
    ensures var k := ElimStmt(imm, s, sub).0;
            if k.Erased? then ErasedBy(imm, s) == StmtIds(s) else StmtIds(k.stmt) == StmtIds(s) - ErasedBy(imm, s)
    decreases s
  {
    match s
    case If(_, _, yes, no) =>
      LeftIds(imm, yes, scope, sub);
      LeftIds(imm, no, scope, ElimBlock(imm, yes, sub).1);
      ErasedIds(imm, yes);
      ErasedIds(imm, no);
    case Loop(_, _, body) =>
      LeftIds(imm, body, scope, sub);
      ErasedIds(imm, body);
    case _ =>
  }

  /******* Escaping addresses *******/

  /** No statement that stays has an operand that is replaced by a removed variable. */
  predicate Clean(imm: set<Id>, b: Block, sub: Sub) {
    match b
    case End => true
    case Cons(s, rest) => StmtClean(imm, s, sub) && Clean(imm, rest, ElimStmt(imm, s, sub).1)
  }

  predicate StmtClean(imm: set<Id>, s: Stmt, sub: Sub) {
    match s
    case Load(_, x) => x in imm || Rename(sub, x) !in imm
    case Store(_, x, v, _) => x in imm || (Rename(sub, x) !in imm && Rename(sub, v) !in imm)
    case If(_, c, yes, no) => Rename(sub, c) !in imm && Clean(imm, yes, sub)
      && Clean(imm, no, ElimBlock(imm, yes, sub).1)
    case Loop(_, _, body) => RenamedOperands(sub, s) !! imm && Clean(imm, body, sub)
    case _ => RenamedOperands(sub, s) !! imm
  }

  function RenamedOperands(sub: Sub, s: Stmt): set<Id> {
    set a | a in Operands(s) :: Rename(sub, a)
  }

  /******* Two runs *******/

  /** What replaces a statement in scope is in scope, and is not a variable that stays. */
  ghost predicate Grounded(m: Machine, imm: set<Id>, scope: set<Id>, sub: Sub) {
    && imm <= m.direct && sub.replaced.Keys !! m.direct && sub.values.Keys <= imm
    && (forall a | a in scope && a !in m.direct :: Rename(sub, a) in scope - (m.direct - imm))
    && (forall x | x in scope && x in sub.values :: sub.values[x] in scope - (m.direct - imm))
  }

  /** The states of the original and of the shorter program, which knows nothing about the addresses of
      removed variables. */
  ghost predicate Related(imm: set<Id>, scope: set<Id>, sub: Sub, s: State, t: State) {
    && s.world == t.world
    && (forall x | x !in imm :: Val(s.mem, x) == Val(t.mem, x))
    && (forall a | a in scope && Rename(sub, a) !in imm :: Val(s.env, a) == Val(t.env, Rename(sub, a)))
    && (forall x | x in scope && x in sub.values && sub.values[x] !in imm ::
          Val(s.mem, x) == Val(t.env, sub.values[x]))
  }

  /** All that `p` says about what is in scope, `q` says too. */
  ghost predicate SameIn(scope: set<Id>, p: Sub, q: Sub) {
    && (forall a | a in scope :: Rename(p, a) == Rename(q, a))
    && (forall x | x in scope && x in p.values :: x in q.values && p.values[x] == q.values[x])
  }

  lemma Restrict(imm: set<Id>, wide: set<Id>, narrow: set<Id>, p: Sub, q: Sub, s: State, t: State)
    requires Related(imm, wide, p, s, t) && narrow <= wide && SameIn(narrow, q, p)
    ensures Related(imm, narrow, q, s, t)
  {
  }

  /** The outcomes agree, in the states that `scope` and `sub` describe. */
  ghost predicate SameOutcome(imm: set<Id>, scope: set<Id>, sub: Sub, o: Outcome, p: Outcome) {
    && (o.Diverged? <==> p.Diverged?)
    && (o.Done? ==> o.exit == p.exit && Related(imm, scope, sub, o.state, p.state))
  }

  /** The same, with `scope` and `sub` for a run that falls through. */
  ghost predicate SameStep(imm: set<Id>, scope0: set<Id>, sub0: Sub, scope: set<Id>, sub: Sub, o: Outcome, p: Outcome) {
    SameOutcome(imm, scope0, sub0, o, p) && (o.Done? && o.exit.Fell? ==> SameOutcome(imm, scope, sub, o, p))
  }

  function Run(m: Machine, k: Kept, t: State, fuel: nat): Outcome {
    if k.Erased? then Done(Fell, t) else ExecStmt(m, k.stmt, t, fuel)
  }

  /** What holds of a piece of the program when the pass and the run reach it. */
  ghost predicate Here(m: Machine, imm: set<Id>, ids: set<Id>, declared: set<Id>, scope: set<Id>, sub: Sub) {
    && m.direct * ids <= declared && scope !! ids
    && sub.replaced.Keys !! ids && sub.values.Keys !! ids
    && Grounded(m, imm, scope, sub)
  }

  lemma RenamedVals(imm: set<Id>, scope: set<Id>, sub: Sub, s: State, t: State, ids: seq<Id>)
    requires Related(imm, scope, sub, s, t)
             && (forall i | 0 <= i < |ids| :: ids[i] in scope && Rename(sub, ids[i]) !in imm)
    ensures Vals(s.env, ids) == Vals(t.env, RenameAll(sub, ids))
  {
  }

  /** Both states give the new statement `id` the same value. */
  lemma DefineSame(imm: set<Id>, scope: set<Id>, sub: Sub, s: State, t: State, id: Id, v: int)
    requires Related(imm, scope, sub, s, t) && id !in scope && id !in sub.replaced && id !in sub.values
    requires forall a | a in scope && Rename(sub, a) !in imm :: Rename(sub, a) in scope
    requires forall x | x in scope && x in sub.values :: sub.values[x] in scope
    ensures Related(imm, scope + {id}, sub, s.(env := s.env[id := v]), t.(env := t.env[id := v]))
  {
  }

  /** Both states assign the same value to a variable that stays. */
  lemma AssignSame(imm: set<Id>, scope: set<Id>, sub: Sub, s: State, t: State, x: Id, v: int)
    requires Related(imm, scope, sub, s, t) && x !in imm && x !in sub.values
    ensures Related(imm, scope, sub, s.(mem := s.mem[x := v]), t.(mem := t.mem[x := v]))
  {
  }

  /** Only the original assigns to a variable that goes. */
  lemma AssignGone(imm: set<Id>, scope: set<Id>, sub: Sub, s: State, t: State, x: Id, v: int)
    requires Related(imm, scope, sub, s, t) && x in imm && x !in sub.values
    ensures Related(imm, scope, sub, s.(mem := s.mem[x := v]), t)
  {
  }

  lemma GroundedNew(m: Machine, imm: set<Id>, scope: set<Id>, sub: Sub, id: Id)
    requires Grounded(m, imm, scope, sub) && id !in scope && id !in sub.replaced && id !in sub.values
    ensures Grounded(m, imm, scope + {id}, sub)
    ensures forall a | a in scope && Rename(sub, a) !in imm :: Rename(sub, a) in scope
  {
  }

  lemma StepSame(m: Machine, imm: set<Id>, scope: set<Id>, sub: Sub, s: State, t: State, id: Id, vals: seq<int>)
    requires Related(imm, scope, sub, s, t) && Grounded(m, imm, scope, sub) && id !in scope && id !in sub.replaced
             && id !in sub.values
    ensures Grounded(m, imm, scope + {id}, sub)
    ensures SameStep(imm, scope, sub, scope + {id}, sub, Step(m, id, vals, s), Step(m, id, vals, t))
  {
    GroundedNew(m, imm, scope, sub, id);
    var r := m.step(id, vals, s.world);
    DefineSame(imm, scope, sub, s, t, id, r.0);
    Widened(imm, scope, {id}, sub, Step(m, id, vals, s), Step(m, id, vals, t));
  }

  lemma Widened(imm: set<Id>, scope: set<Id>, more: set<Id>, sub: Sub, o: Outcome, p: Outcome)
    requires SameOutcome(imm, scope + more, sub, o, p)
    ensures SameStep(imm, scope, sub, scope + more, sub, o, p)
  {
  }

  lemma AllocaSame(m: Machine, imm: set<Id>, x: Id, scope: set<Id>, sub: Sub, st: State, t: State, fuel: nat)
    requires Here(m, imm, {x}, {x}, scope, sub) && Related(imm, scope, sub, st, t)
    ensures Grounded(m, imm, scope + {x}, sub)
    ensures SameStep(imm, scope, sub, scope + {x}, sub, ExecStmt(m, Alloca(x), st, fuel),
                     Run(m, ElimStmt(imm, Alloca(x), sub).0, t, fuel))
  {
    GroundedNew(m, imm, scope, sub, x);
    if x in imm {
      AssignGone(imm, scope, sub, st, t, x, 0);
      DefineGone(imm, scope, sub, st.(mem := st.mem[x := 0]), t, x, m.address(x));
      Widened(imm, scope, {x}, sub, ExecStmt(m, Alloca(x), st, fuel), Done(Fell, t));
    } else if x in m.direct {
      AssignSame(imm, scope, sub, st, t, x, 0);
      DefineSame(imm, scope, sub, st.(mem := st.mem[x := 0]), t.(mem := t.mem[x := 0]), x, m.address(x));
      Widened(imm, scope, {x}, sub, ExecStmt(m, Alloca(x), st, fuel), ExecStmt(m, Alloca(x), t, fuel));
    } else {
      StepSame(m, imm, scope, sub, st, t, x, []);
    }
  }

  lemma DefineGone(imm: set<Id>, scope: set<Id>, sub: Sub, s: State, t: State, x: Id, v: int)
    requires Related(imm, scope, sub, s, t) && x in imm && x !in sub.values && x !in scope && x !in sub.replaced
    ensures Related(imm, scope + {x}, sub, s.(env := s.env[x := v]), t)
  {
  }

  lemma LoadKept(m: Machine, imm: set<Id>, id: Id, x: Id, scope: set<Id>, sub: Sub, st: State, t: State, fuel: nat)
    requires Here(m, imm, {id}, {}, scope, sub) && Related(imm, scope, sub, st, t) && x in scope && x !in imm
    requires Rename(sub, x) !in imm
    ensures Grounded(m, imm, scope + {id}, sub)
    ensures SameStep(imm, scope, sub, scope + {id}, sub, ExecStmt(m, Load(id, x), st, fuel),
                     ExecStmt(m, Load(id, Rename(sub, x)), t, fuel))
  {
    GroundedNew(m, imm, scope, sub, id);
    if x in m.direct {
      assert Rename(sub, x) == x;
      DefineSame(imm, scope, sub, st, t, id, Val(st.mem, x));
      Widened(imm, scope, {id}, sub, ExecStmt(m, Load(id, x), st, fuel), ExecStmt(m, Load(id, x), t, fuel));
    } else {
      assert Rename(sub, x) !in m.direct;
      StepSame(m, imm, scope, sub, st, t, id, [Val(st.env, x)]);
    }
  }

  /** The loaded value is that of the statement that was stored. */
  lemma LoadGone(m: Machine, imm: set<Id>, id: Id, x: Id, scope: set<Id>, sub: Sub, s: State, t: State)
    requires Here(m, imm, {id}, {}, scope, sub) && Related(imm, scope, sub, s, t) && x in scope && x in imm
             && x in sub.values && id !in m.direct
    ensures Related(imm, scope + {id}, sub.(replaced := sub.replaced[id := sub.values[x]]),
                    s.(env := s.env[id := Val(s.mem, x)]), t)
    ensures Related(imm, scope, sub, s.(env := s.env[id := Val(s.mem, x)]), t)
  {
  }

  lemma GroundedLoaded(m: Machine, imm: set<Id>, id: Id, x: Id, scope: set<Id>, sub: Sub)
    requires Here(m, imm, {id}, {}, scope, sub) && x in scope && x in sub.values && id !in m.direct
    ensures Grounded(m, imm, scope + {id}, sub.(replaced := sub.replaced[id := sub.values[x]]))
  {
  }

  lemma StoreKept(m: Machine, imm: set<Id>, s: Stmt, scope: set<Id>, sub: Sub, st: State, t: State, fuel: nat)
    requires s.Store? && Here(m, imm, {s.id}, {}, scope, sub) && Related(imm, scope, sub, st, t) && s.dest in scope
             && s.val in scope
    requires s.dest !in imm && Rename(sub, s.dest) !in imm && Rename(sub, s.val) !in imm
    ensures SameOutcome(imm, scope, sub, ExecStmt(m, s, st, fuel),
                        ExecStmt(m, Store(s.id, Rename(sub, s.dest), Rename(sub, s.val), s.sameType), t, fuel))
  {
    var x, v := s.dest, Val(st.env, s.val);
    if x in m.direct {
      assert Rename(sub, x) == x;
      AssignSame(imm, scope, sub, st, t, x, if s.sameType then v else m.cast(x, v));
    } else {
      assert Rename(sub, x) !in m.direct;
      StepSame(m, imm, scope, sub, st, t, s.id, [Val(st.env, x), v]);
    }
  }

  lemma StoreGone(m: Machine, imm: set<Id>, scope: set<Id>, sub: Sub, s: State, t: State, x: Id, v: Id)
    requires Grounded(m, imm, scope, sub) && Related(imm, scope, sub, s, t) && x in imm && x !in sub.values
             && v in scope && v !in m.direct - imm
    ensures Related(imm, scope, sub, s.(mem := s.mem[x := Val(s.env, v)]), t)
    ensures Related(imm, scope, sub.(values := sub.values[x := Rename(sub, v)]), s.(mem := s.mem[x := Val(s.env, v)]),
                    t)
  {
    AssignGone(imm, scope, sub, s, t, x, Val(s.env, v));
  }

  lemma GroundedStored(m: Machine, imm: set<Id>, scope: set<Id>, sub: Sub, x: Id, v: Id)
    requires Grounded(m, imm, scope, sub) && x in imm && x !in sub.values && v in scope && v !in m.direct - imm
    ensures Grounded(m, imm, scope, sub.(values := sub.values[x := Rename(sub, v)]))
  {
  }

  lemma AtomicSame(m: Machine, imm: set<Id>, s: Stmt, scope: set<Id>, sub: Sub, st: State, t: State, fuel: nat)
    requires s.Atomic? && Here(m, imm, {s.id}, {}, scope, sub) && Related(imm, scope, sub, st, t) && s.dest in scope
             && s.val in scope
    requires s.dest !in imm && Rename(sub, s.dest) !in imm && Rename(sub, s.val) !in imm
    ensures Grounded(m, imm, scope + {s.id}, sub)
    ensures SameStep(imm, scope, sub, scope + {s.id}, sub, ExecStmt(m, s, st, fuel),
                     Run(m, ElimStmt(imm, s, sub).0, t, fuel))
  {
    var x, v := s.dest, Val(st.env, s.val);
    GroundedNew(m, imm, scope, sub, s.id);
    if x in m.direct {
      var w := m.atomic(s.id, Val(st.mem, x), v);
      DefineSame(imm, scope, sub, st, t, s.id, Val(st.mem, x));
      AssignSame(imm, scope + {s.id}, sub, st.(env := st.env[s.id := Val(st.mem, x)]),
                 t.(env := t.env[s.id := Val(st.mem, x)]), x, w);
      Widened(imm, scope, {s.id}, sub, ExecStmt(m, s, st, fuel), Run(m, ElimStmt(imm, s, sub).0, t, fuel));
    } else {
      StepSame(m, imm, scope, sub, st, t, s.id, [Val(st.env, x), v]);
    }
  }

  lemma OpSame(m: Machine, imm: set<Id>, s: Stmt, scope: set<Id>, sub: Sub, st: State, t: State, fuel: nat)
    requires s.Op? && Here(m, imm, {s.id}, {}, scope, sub) && Related(imm, scope, sub, st, t) && Operands(s) <= scope
    requires StmtClean(imm, s, sub)
    ensures Grounded(m, imm, scope + {s.id}, sub)
    ensures SameStep(imm, scope, sub, scope + {s.id}, sub, ExecStmt(m, s, st, fuel),
                     Run(m, ElimStmt(imm, s, sub).0, t, fuel))
  {
    RenamedVals(imm, scope, sub, st, t, s.operands);
    var vals := Vals(st.env, s.operands);
    if s.pure {
      GroundedNew(m, imm, scope, sub, s.id);
      DefineSame(imm, scope, sub, st, t, s.id, m.eval(s.id, vals));
      Widened(imm, scope, {s.id}, sub, ExecStmt(m, s, st, fuel), Run(m, ElimStmt(imm, s, sub).0, t, fuel));
    } else {
      StepSame(m, imm, scope, sub, st, t, s.id, vals);
    }
  }

  /** Statements other than branches and loops. */
  lemma SimpleSame(m: Machine, imm: set<Id>, s: Stmt, own: set<Id>, scope: set<Id>, sub: Sub, st: State, t: State,
                   fuel: nat)
    requires !s.If? && !s.Loop? && StmtScoped(s, scope) && Here(m, imm, {s.id}, DeclaredBy(s), scope, sub)
    requires StmtUsedOnce(imm, s, own, sub.values.Keys) && StmtDirectOnly(m.direct - imm, s) && StmtClean(imm, s, sub)
    requires Related(imm, scope, sub, st, t)
    ensures Grounded(m, imm, scope + Defines(s), ElimStmt(imm, s, sub).1)
    ensures SameStep(imm, scope, sub, scope + Defines(s), ElimStmt(imm, s, sub).1,
                     ExecStmt(m, s, st, fuel), Run(m, ElimStmt(imm, s, sub).0, t, fuel))
  {
    match s
    case Alloca(x) => AllocaSame(m, imm, x, scope, sub, st, t, fuel);
    case Load(id, x) =>
      if x in imm {
        assert id !in m.direct * {id};
        LoadGone(m, imm, id, x, scope, sub, st, t);
        GroundedLoaded(m, imm, id, x, scope, sub);
      } else {
        LoadKept(m, imm, id, x, scope, sub, st, t, fuel);
      }
    case Store(_, x, v, _) =>
      assert scope + {} == scope;
      if x in imm {
        StoreGone(m, imm, scope, sub, st, t, x, v);
        GroundedStored(m, imm, scope, sub, x, v);
      } else {
        StoreKept(m, imm, s, scope, sub, st, t, fuel);
      }
    case Atomic(_, _, _) => AtomicSame(m, imm, s, scope, sub, st, t, fuel);
    case Op(_, _, _) => OpSame(m, imm, s, scope, sub, st, t, fuel);
    case Continue(_) => assert scope + {} == scope;
    case WhileControl(_, c) => assert scope + {} == scope;
  }

  /** After a nested block, the replacements say the same about what is in scope outside it. */
  lemma NestedSub(m: Machine, imm: set<Id>, b: Block, ids: set<Id>, scope: set<Id>, sub: Sub)
    requires WellScoped(b, scope) && Here(m, imm, BlockIds(b), Declared(b), scope, sub)
             && UsedOnce(imm, b, {}, sub.values.Keys)
    requires sub.replaced.Keys !! ids && sub.values.Keys !! ids && ids !! BlockIds(b)
             && m.direct * BlockIds(b) <= Declared(b)
    ensures var after := ElimBlock(imm, b, sub).1;
            && SameIn(scope, sub, after) && SameIn(scope, after, sub) && Grounded(m, imm, scope, after)
            && after.replaced.Keys !! ids && after.values.Keys !! ids
            && after.values.Keys == sub.values.Keys + StoredIn(imm, b)
  {
    ScopedDistinct(b, scope);
    ElimExtends(imm, b, {}, sub);
    StoredOwn(imm, b, {}, sub.values.Keys);
    StoredInVars(imm, b);
    DeclaredIds(b);
    ReplacedNotDirect(m, imm, b, {}, sub);
  }

  /** Only loads are replaced. */
  lemma {:induction false} ReplacedNotDirect(m: Machine, imm: set<Id>, b: Block, own: set<Id>, sub: Sub)
    requires DistinctIds(b) && sub.replaced.Keys !! m.direct && m.direct * BlockIds(b) <= Declared(b)
    ensures ElimBlock(imm, b, sub).1.replaced.Keys !! m.direct
    decreases b
  {
    if b.Cons? {
      DeclaredByIds(b.first);
      DeclaredIds(b.rest);
      StmtReplacedNotDirect(m, imm, b.first, own, sub);
      ReplacedNotDirect(m, imm, b.rest, own, ElimStmt(imm, b.first, sub).1);
    }
  }

  lemma {:induction false} StmtReplacedNotDirect(m: Machine, imm: set<Id>, s: Stmt, own: set<Id>, sub: Sub)
    requires StmtDistinctIds(s) && sub.replaced.Keys !! m.direct && m.direct * StmtIds(s) <= DeclaredBy(s)
    ensures ElimStmt(imm, s, sub).1.replaced.Keys !! m.direct
    decreases s
  {
    match s
    case If(_, _, yes, no) =>
      DeclaredIds(yes);
      DeclaredIds(no);
      ReplacedNotDirect(m, imm, yes, own, sub);
      ReplacedNotDirect(m, imm, no, own, ElimBlock(imm, yes, sub).1);
    case Loop(_, _, body) => ReplacedNotDirect(m, imm, body, own, sub);
    case Load(id, _) => assert id !in m.direct * {id};
    case _ =>
  }

  /** A block and what is left of it run alike. */
  lemma {:induction false} BlockSame(m: Machine, imm: set<Id>, b: Block, own: set<Id>, scope: set<Id>, sub: Sub,
                                     st: State, t: State, fuel: nat)
    requires WellScoped(b, scope) && Here(m, imm, BlockIds(b), Declared(b), scope, sub) && own <= scope
    requires UsedOnce(imm, b, own, sub.values.Keys) && DirectOnly(m.direct - imm, b) && Clean(imm, b, sub)
    requires Related(imm, scope, sub, st, t)
    ensures SameOutcome(imm, scope, sub, ExecBlock(m, b, st, fuel), ExecBlock(m, ElimBlock(imm, b, sub).0, t, fuel))
    decreases fuel, b
  {
    if b.Cons? {
      var s, rest := b.first, b.rest;
      var k, after := ElimStmt(imm, s, sub).0, ElimStmt(imm, s, sub).1;
      HereFirst(m, imm, b, scope, sub);
      StmtSame(m, imm, s, own, scope, sub, st, t, fuel);
      var o, p := ExecStmt(m, s, st, fuel), Run(m, k, t, fuel);
      assert k.Erased? ==> p == Done(Fell, t);
      if o.Done? && o.exit.Fell? {
        HereRest(m, imm, b, own, scope, sub);
        BlockSame(m, imm, rest, own + Declares(s), scope + Defines(s), after, o.state, p.state, fuel);
        var o1, p1 := ExecBlock(m, rest, o.state, fuel), ExecBlock(m, ElimBlock(imm, rest, after).0, p.state, fuel);
        if o1.Done? {
          Restrict(imm, scope + Defines(s), scope, after, sub, o1.state, p1.state);
        }
      }
    }
  }

  lemma HereFirst(m: Machine, imm: set<Id>, b: Block, scope: set<Id>, sub: Sub)
    requires b.Cons? && WellScoped(b, scope) && Here(m, imm, BlockIds(b), Declared(b), scope, sub)
    ensures Here(m, imm, StmtIds(b.first), DeclaredBy(b.first), scope, sub)
  {
    DeclaredIds(b.rest);
    forall x | x in m.direct && x in StmtIds(b.first)
      ensures x in DeclaredBy(b.first)
    {
      assert x in m.direct * BlockIds(b);
    }
  }

  lemma HereRest(m: Machine, imm: set<Id>, b: Block, own: set<Id>, scope: set<Id>, sub: Sub)
    requires b.Cons? && WellScoped(b, scope) && Here(m, imm, BlockIds(b), Declared(b), scope, sub) && own <= scope
    requires UsedOnce(imm, b, own, sub.values.Keys)
    requires Grounded(m, imm, scope + Defines(b.first), ElimStmt(imm, b.first, sub).1)
    ensures Here(m, imm, BlockIds(b.rest), Declared(b.rest), scope + Defines(b.first), ElimStmt(imm, b.first, sub).1)
    ensures ElimStmt(imm, b.first, sub).1.values.Keys == sub.values.Keys + StoredBy(imm, b.first)
    ensures own + Declares(b.first) <= scope + Defines(b.first)
    ensures SameIn(scope, sub, ElimStmt(imm, b.first, sub).1)
  {
    var s, rest := b.first, b.rest;
    StmtScopedDistinct(s, scope);
    StmtExtends(imm, s, own, sub);
    StmtStoredOwn(imm, s, own, sub.values.Keys);
    DeclaredByIds(s);
    ExtendsSame(scope, sub, ElimStmt(imm, s, sub).1, StoredBy(imm, s), StmtIds(s));
    DirectRest(m, b);
    assert StoredBy(imm, s) <= own + StmtIds(s);
    assert (scope + StmtIds(s)) !! BlockIds(rest);
  }

  lemma ExtendsSame(scope: set<Id>, sub: Sub, after: Sub, stored: set<Id>, ids: set<Id>)
    requires Extends(sub, after, stored, ids) && scope !! ids
    ensures SameIn(scope, sub, after)
  {
  }

  lemma DirectRest(m: Machine, b: Block)
    requires b.Cons? && StmtIds(b.first) !! BlockIds(b.rest) && m.direct * BlockIds(b) <= Declared(b)
    ensures m.direct * BlockIds(b.rest) <= Declared(b.rest)
  {
    DeclaredByIds(b.first);
    forall x | x in m.direct && x in BlockIds(b.rest)
      ensures x in Declared(b.rest)
    {
      assert x in m.direct * BlockIds(b);
    }
  }

  lemma {:induction false} StmtSame(m: Machine, imm: set<Id>, s: Stmt, own: set<Id>, scope: set<Id>, sub: Sub,
                                    st: State, t: State, fuel: nat)
    requires StmtScoped(s, scope) && Here(m, imm, StmtIds(s), DeclaredBy(s), scope, sub) && own <= scope
    requires StmtUsedOnce(imm, s, own, sub.values.Keys) && StmtDirectOnly(m.direct - imm, s) && StmtClean(imm, s, sub)
    requires Related(imm, scope, sub, st, t)
    ensures Grounded(m, imm, scope + Defines(s), ElimStmt(imm, s, sub).1)
    ensures SameStep(imm, scope, sub, scope + Defines(s), ElimStmt(imm, s, sub).1,
                     ExecStmt(m, s, st, fuel), Run(m, ElimStmt(imm, s, sub).0, t, fuel))
    decreases fuel, s
  {
    if s.If? {
      IfSame(m, imm, s, scope, sub, st, t, fuel);
      assert scope + Defines(s) == scope;
    } else if s.Loop? {
      LoopStmtSame(m, imm, s, scope, sub, st, t, fuel);
      assert scope + Defines(s) == scope;
    } else {
      SimpleSame(m, imm, s, own, scope, sub, st, t, fuel);
    }
  }

  lemma {:induction false} IfSame(m: Machine, imm: set<Id>, s: Stmt, scope: set<Id>, sub: Sub, st: State, t: State,
                                  fuel: nat)
    requires s.If? && StmtScoped(s, scope) && Here(m, imm, StmtIds(s), DeclaredBy(s), scope, sub)
    requires StmtUsedOnce(imm, s, {}, sub.values.Keys) && StmtDirectOnly(m.direct - imm, s) && StmtClean(imm, s, sub)
    requires Related(imm, scope, sub, st, t)
    ensures Grounded(m, imm, scope, ElimStmt(imm, s, sub).1)
    ensures SameStep(imm, scope, sub, scope, ElimStmt(imm, s, sub).1,
                     ExecStmt(m, s, st, fuel), Run(m, ElimStmt(imm, s, sub).0, t, fuel))
    decreases fuel, s, 0
  {
    var y := ElimBlock(imm, s.yes, sub);
    var n := ElimBlock(imm, s.no, y.1);
    HereBranches(m, imm, s, scope, sub);
    var o, p := ExecStmt(m, s, st, fuel), ExecStmt(m, If(s.id, Rename(sub, s.cond), y.0, n.0), t, fuel);
    if m.truth(Val(st.env, s.cond)) {
      BlockSame(m, imm, s.yes, {}, scope, sub, st, t, fuel);
    } else {
      Restrict(imm, scope, scope, sub, y.1, st, t);
      BlockSame(m, imm, s.no, {}, scope, y.1, st, t, fuel);
      if o.Done? {
        Restrict(imm, scope, scope, y.1, sub, o.state, p.state);
      }
    }
    if o.Done? {
      Restrict(imm, scope, scope, sub, y.1, o.state, p.state);
      Restrict(imm, scope, scope, y.1, n.1, o.state, p.state);
    }
  }

  lemma HereBranches(m: Machine, imm: set<Id>, s: Stmt, scope: set<Id>, sub: Sub)
    requires s.If? && StmtScoped(s, scope) && Here(m, imm, StmtIds(s), DeclaredBy(s), scope, sub)
    requires StmtUsedOnce(imm, s, {}, sub.values.Keys)
    ensures var after := ElimBlock(imm, s.yes, sub).1;
            && Here(m, imm, BlockIds(s.yes), Declared(s.yes), scope, sub)
            && Here(m, imm, BlockIds(s.no), Declared(s.no), scope, after)
            && after.values.Keys == sub.values.Keys + StoredIn(imm, s.yes)
            && SameIn(scope, sub, after) && SameIn(scope, after, sub)
            && SameIn(scope, ElimBlock(imm, s.no, after).1, after)
            && SameIn(scope, after, ElimBlock(imm, s.no, after).1)
            && Grounded(m, imm, scope, ElimBlock(imm, s.no, after).1)
  {
    DeclaredIds(s.yes);
    DeclaredIds(s.no);
    forall x | x in m.direct && x in BlockIds(s.yes) + BlockIds(s.no)
      ensures x in Declared(s.yes) + Declared(s.no)
    {
      assert x in m.direct * StmtIds(s);
    }
    NestedSub(m, imm, s.yes, BlockIds(s.no), scope, sub);
    NestedSub(m, imm, s.no, {}, scope, ElimBlock(imm, s.yes, sub).1);
  }

  lemma {:induction false} LoopStmtSame(m: Machine, imm: set<Id>, s: Stmt, scope: set<Id>, sub: Sub, st: State,
                                        t: State, fuel: nat)
    requires s.Loop? && StmtScoped(s, scope) && Here(m, imm, StmtIds(s), DeclaredBy(s), scope, sub)
    requires StmtUsedOnce(imm, s, {}, sub.values.Keys) && StmtDirectOnly(m.direct - imm, s) && StmtClean(imm, s, sub)
    requires Related(imm, scope, sub, st, t)
    ensures Grounded(m, imm, scope, ElimStmt(imm, s, sub).1)
    ensures SameStep(imm, scope, sub, scope, ElimStmt(imm, s, sub).1,
                     ExecStmt(m, s, st, fuel), Run(m, ElimStmt(imm, s, sub).0, t, fuel))
    decreases fuel, s, 0
  {
    var r := ElimBlock(imm, s.body, sub);
    forall x | x in m.direct && x in BlockIds(s.body)
      ensures x in Declared(s.body)
    {
      assert x in m.direct * StmtIds(s);
    }
    NestedSub(m, imm, s.body, {}, scope, sub);
    RenamedVals(imm, scope, sub, st, t, s.operands);
    LoopSame(m, imm, s.id, Vals(st.env, s.operands), s.body, scope, sub, st, t, fuel);
    var o, p := ExecStmt(m, s, st, fuel), ExecStmt(m, Loop(s.id, RenameAll(sub, s.operands), r.0), t, fuel);
    if o.Done? {
      Restrict(imm, scope, scope, sub, r.1, o.state, p.state);
    }
  }

  lemma {:induction false} LoopSame(m: Machine, imm: set<Id>, id: Id, vals: seq<int>, body: Block, scope: set<Id>,
                                    sub: Sub, st: State, t: State, fuel: nat)
    requires WellScoped(body, scope) && Here(m, imm, BlockIds(body), Declared(body), scope, sub)
    requires UsedOnce(imm, body, {}, sub.values.Keys) && DirectOnly(m.direct - imm, body) && Clean(imm, body, sub)
    requires Related(imm, scope, sub, st, t)
    ensures SameOutcome(imm, scope, sub, ExecLoop(m, id, vals, body, st, fuel),
                        ExecLoop(m, id, vals, ElimBlock(imm, body, sub).0, t, fuel))
    decreases fuel, body, 1
  {
    var r := m.again(id, vals, st.world);
    var s1, t1 := st.(world := r.1), t.(world := r.1);
    if r.0 && fuel > 0 {
      BlockSame(m, imm, body, {}, scope, sub, s1, t1, fuel - 1);
      var o, p := ExecBlock(m, body, s1, fuel - 1), ExecBlock(m, ElimBlock(imm, body, sub).0, t1, fuel - 1);
      if o.Done? && !o.exit.Broke? {
        LoopSame(m, imm, id, vals, body, scope, sub, o.state, p.state, fuel - 1);
      }
    }
  }

  /******* The whole pass *******/

  /** What remains of the variables that the machine shares with the rest of the program. */
  ghost predicate SameResult(imm: set<Id>, o: Outcome, p: Outcome) {
    && (o.Diverged? <==> p.Diverged?)
    && (o.Done? ==> o.exit == p.exit && o.state.world == p.state.world
                    && forall x | x !in imm :: Val(o.state.mem, x) == Val(p.state.mem, x))
  }

  function Eliminated(b: Block): Block {
    ElimBlock(Gathered(b), b, Sub(map[], map[])).0
  }

  /** Eliminating the immutable variables preserves every run, if their addresses do not escape: the same
      world, the same remaining variables, the same exit, and neither program diverges alone. */
  lemma EliminationPreserves(m: Machine, b: Block, st: State, fuel: nat)
    requires WellScoped(b, {}) && NoEscape(Gathered(b), b, NoTaint()) && Fits(m, b)
    ensures SameRun(m, b, st, fuel)
  {
    GatheredUsedOnce(b);
    CleanExactly(b);
    var none := Sub(map[], map[]);
    assert none.values.Keys == {};
    BlockSame(m, Gathered(b), b, {}, {}, none, st, st, fuel);
  }

  /** A machine for the program: the reported variables are not part of its world, and the other
      variables that are not are accessed directly only. */
  ghost predicate Fits(m: Machine, b: Block) {
    Gathered(b) <= m.direct && m.direct * BlockIds(b) <= Declared(b) && DirectOnly(m.direct - Gathered(b), b)
  }

  /******* When addresses escape *******/

  /** The loads that give the address of a reported variable, and the reported variables that hold one. */
  datatype Taint = Taint(loads: set<Id>, holders: set<Id>)

  function NoTaint(): Taint {
    Taint({}, {})
  }

  predicate IsAddress(imm: set<Id>, t: Taint, a: Id) {
    a in imm || a in t.loads
  }

  function TaintStmt(imm: set<Id>, s: Stmt, t: Taint): Taint
    decreases s
  {
    match s
    case Load(id, x) => if x in imm && x in t.holders then t.(loads := t.loads + {id}) else t
    case Store(_, x, v, _) => if x in imm && IsAddress(imm, t, v) then t.(holders := t.holders + {x}) else t
    case If(_, _, yes, no) => TaintBlock(imm, no, TaintBlock(imm, yes, t))
    case Loop(_, _, body) => TaintBlock(imm, body, t)
    case _ => t
  }

  function TaintBlock(imm: set<Id>, b: Block, t: Taint): Taint
    decreases b
  {
    match b
    case End => t
    case Cons(s, rest) => TaintBlock(imm, rest, TaintStmt(imm, s, t))
  }

  /** The address of a reported variable goes into reported variables only, and what is loaded from there
      is not used otherwise: no statement that stays has it as an operand. */
  predicate NoEscape(imm: set<Id>, b: Block, t: Taint) {
    match b
    case End => true
    case Cons(s, rest) => StmtNoEscape(imm, s, t) && NoEscape(imm, rest, TaintStmt(imm, s, t))
  }

  predicate StmtNoEscape(imm: set<Id>, s: Stmt, t: Taint) {
    match s
    case Load(_, x) => x in imm || !IsAddress(imm, t, x)
    case Store(_, x, v, _) => x in imm || (!IsAddress(imm, t, x) && !IsAddress(imm, t, v))
    case If(_, c, yes, no) => !IsAddress(imm, t, c) && NoEscape(imm, yes, t)
      && NoEscape(imm, no, TaintBlock(imm, yes, t))
    case Loop(_, _, body) => NoAddress(imm, t, s) && NoEscape(imm, body, t)
    case _ => NoAddress(imm, t, s)
  }

  predicate NoAddress(imm: set<Id>, t: Taint, s: Stmt) {
    forall a | a in Operands(s) :: !IsAddress(imm, t, a)
  }

  /** A statement has the address of a reported variable exactly when that variable replaces it. */
  ghost predicate Linked(imm: set<Id>, sub: Sub, t: Taint) {
    && (forall a :: LinkedAt(imm, sub, t, a))
    && t.holders <= sub.values.Keys && sub.replaced.Keys !! imm
    && (forall x | x in sub.values :: sub.values[x] in imm <==> x in t.holders)
  }

  ghost predicate LinkedAt(imm: set<Id>, sub: Sub, t: Taint, a: Id) {
    Rename(sub, a) in imm <==> IsAddress(imm, t, a)
  }

  lemma {:induction false} BlockLinked(imm: set<Id>, b: Block, own: set<Id>, sub: Sub, t: Taint)
    requires UsedOnce(imm, b, own, sub.values.Keys) && sub.replaced.Keys !! BlockIds(b) && DistinctIds(b)
    requires imm * BlockIds(b) <= Declared(b) && Linked(imm, sub, t)
    ensures Clean(imm, b, sub) <==> NoEscape(imm, b, t)
    ensures Linked(imm, ElimBlock(imm, b, sub).1, TaintBlock(imm, b, t))
    decreases b
  {
    if b.Cons? {
      var s, rest := b.first, b.rest;
      DeclaredIds(rest);
      DeclaredByIds(s);
      forall x | x in imm
        ensures (x in StmtIds(s) ==> x in DeclaredBy(s)) && (x in BlockIds(rest) ==> x in Declared(rest))
      {
        assert x in BlockIds(b) ==> x in imm * BlockIds(b);
      }
      StmtLinked(imm, s, own, sub, t);
      StmtExtends(imm, s, own, sub);
      BlockLinked(imm, rest, own + Declares(s), ElimStmt(imm, s, sub).1, TaintStmt(imm, s, t));
    }
  }

  lemma {:induction false} StmtLinked(imm: set<Id>, s: Stmt, own: set<Id>, sub: Sub, t: Taint)
    requires StmtUsedOnce(imm, s, own, sub.values.Keys) && sub.replaced.Keys !! StmtIds(s) && StmtDistinctIds(s)
    requires imm * StmtIds(s) <= DeclaredBy(s) && Linked(imm, sub, t)
    ensures StmtClean(imm, s, sub) <==> StmtNoEscape(imm, s, t)
    ensures Linked(imm, ElimStmt(imm, s, sub).1, TaintStmt(imm, s, t))
    decreases s
  {
    match s
    case If(_, c, yes, no) => IfLinked(imm, s, sub, t);
    case Loop(_, _, body) =>
      forall x | x in imm && x in BlockIds(body)
        ensures x in Declared(body)
      {
        assert x in imm * StmtIds(s);
      }
      OperandsLinked(imm, s, sub, t);
      BlockLinked(imm, body, {}, sub, t);
    case Load(id, x) => LoadLinked(imm, id, x, sub, t);
    case Store(_, x, v, _) => StoreLinked(imm, s, sub, t);
    case _ => OperandsLinked(imm, s, sub, t);
  }

  lemma {:induction false} IfLinked(imm: set<Id>, s: Stmt, sub: Sub, t: Taint)
    requires s.If? && StmtUsedOnce(imm, s, {}, sub.values.Keys) && sub.replaced.Keys !! StmtIds(s) && StmtDistinctIds(s)
    requires imm * StmtIds(s) <= DeclaredBy(s) && Linked(imm, sub, t)
    ensures StmtClean(imm, s, sub) <==> StmtNoEscape(imm, s, t)
    ensures Linked(imm, ElimStmt(imm, s, sub).1, TaintStmt(imm, s, t))
    decreases s, 0
  {
    DeclaredIds(s.yes);
    DeclaredIds(s.no);
    forall x | x in imm
      ensures (x in BlockIds(s.yes) ==> x in Declared(s.yes)) && (x in BlockIds(s.no) ==> x in Declared(s.no))
    {
      assert x in StmtIds(s) ==> x in imm * StmtIds(s);
    }
    assert LinkedAt(imm, sub, t, s.cond);
    BlockLinked(imm, s.yes, {}, sub, t);
    ElimExtends(imm, s.yes, {}, sub);
    BlockLinked(imm, s.no, {}, ElimBlock(imm, s.yes, sub).1, TaintBlock(imm, s.yes, t));
  }

  lemma OperandsLinked(imm: set<Id>, s: Stmt, sub: Sub, t: Taint)
    requires Linked(imm, sub, t)
    ensures RenamedOperands(sub, s) !! imm <==> NoAddress(imm, t, s)
  {
    if RenamedOperands(sub, s) !! imm {
      forall a | a in Operands(s)
        ensures !IsAddress(imm, t, a)
      {
        assert Rename(sub, a) in RenamedOperands(sub, s) && LinkedAt(imm, sub, t, a);
      }
    } else {
      var r :| r in RenamedOperands(sub, s) && r in imm;
      var a :| a in Operands(s) && Rename(sub, a) == r;
      assert LinkedAt(imm, sub, t, a);
    }
  }

  lemma LoadLinked(imm: set<Id>, id: Id, x: Id, sub: Sub, t: Taint)
    requires Linked(imm, sub, t) && id !in sub.replaced && imm * {id} <= {} && (x in imm ==> x in sub.values)
    ensures StmtClean(imm, Load(id, x), sub) <==> StmtNoEscape(imm, Load(id, x), t)
    ensures Linked(imm, ElimStmt(imm, Load(id, x), sub).1, TaintStmt(imm, Load(id, x), t))
  {
    assert LinkedAt(imm, sub, t, x) && LinkedAt(imm, sub, t, id);
    var sub', t' := ElimStmt(imm, Load(id, x), sub).1, TaintStmt(imm, Load(id, x), t);
    forall a
      ensures LinkedAt(imm, sub', t', a)
    {
      assert LinkedAt(imm, sub, t, a);
    }
    assert id !in imm * {id};
  }

  lemma StoreLinked(imm: set<Id>, s: Stmt, sub: Sub, t: Taint)
    requires s.Store? && Linked(imm, sub, t) && (s.dest in imm ==> s.dest !in sub.values)
    ensures StmtClean(imm, s, sub) <==> StmtNoEscape(imm, s, t)
    ensures Linked(imm, ElimStmt(imm, s, sub).1, TaintStmt(imm, s, t))
  {
    assert LinkedAt(imm, sub, t, s.dest) && LinkedAt(imm, sub, t, s.val);
    var sub', t' := ElimStmt(imm, s, sub).1, TaintStmt(imm, s, t);
    forall a
      ensures LinkedAt(imm, sub', t', a)
    {
      assert LinkedAt(imm, sub, t, a);
    }
  }

  lemma CleanExactly(b: Block)
    requires WellScoped(b, {})
    ensures Clean(Gathered(b), b, Sub(map[], map[])) <==> NoEscape(Gathered(b), b, NoTaint())
  {
    GatheredUsedOnce(b);
    ScopedDistinct(b, {});
    var none := Sub(map[], map[]);
    assert none.values.Keys == {};
    forall a
      ensures LinkedAt(Gathered(b), none, NoTaint(), a)
    {
    }
    BlockLinked(Gathered(b), b, {}, none, NoTaint());
  }

  /******* What is left is a program *******/

  /** The statements in scope that stay. */
  function Target(imm: set<Id>, scope: set<Id>, sub: Sub): set<Id> {
    scope - imm - sub.replaced.Keys
  }

  /** A replacement stays, or is a removed variable. */
  ghost predicate Settled(imm: set<Id>, scope: set<Id>, sub: Sub) {
    && sub.replaced.Keys !! imm
    && (forall a | a in scope :: Rename(sub, a) in Target(imm, scope, sub) + imm)
    && (forall x | x in scope && x in sub.values :: sub.values[x] in Target(imm, scope, sub) + imm)
  }

  /** Where the pass stands. */
  ghost predicate Ahead(imm: set<Id>, ids: set<Id>, declared: set<Id>, scope: set<Id>, sub: Sub) {
    && imm * ids <= declared && scope !! ids && sub.replaced.Keys !! ids && sub.values.Keys !! ids
    && sub.values.Keys <= imm && Settled(imm, scope, sub)
  }

  /** What is left of a block is well scoped exactly when no operand is replaced by a removed variable. */
  lemma {:induction false} BlockScopedExactly(imm: set<Id>, b: Block, own: set<Id>, scope: set<Id>, sub: Sub)
    requires WellScoped(b, scope) && Ahead(imm, BlockIds(b), Declared(b), scope, sub) && own <= scope
    requires UsedOnce(imm, b, own, sub.values.Keys)
    ensures BlockIds(ElimBlock(imm, b, sub).0) <= BlockIds(b)
    ensures WellScoped(ElimBlock(imm, b, sub).0, Target(imm, scope, sub)) <==> Clean(imm, b, sub)
    decreases b
  {
    if b.Cons? {
      var s, rest := b.first, b.rest;
      var k, after := ElimStmt(imm, s, sub).0, ElimStmt(imm, s, sub).1;
      AheadFirst(imm, b, scope, sub);
      StmtScopedExactly(imm, s, own, scope, sub);
      AheadRest(imm, b, own, scope, sub);
      BlockScopedExactly(imm, rest, own + Declares(s), scope + Defines(s), after);
    }
  }

  lemma AheadFirst(imm: set<Id>, b: Block, scope: set<Id>, sub: Sub)
    requires b.Cons? && WellScoped(b, scope) && Ahead(imm, BlockIds(b), Declared(b), scope, sub)
    ensures Ahead(imm, StmtIds(b.first), DeclaredBy(b.first), scope, sub)
  {
    DeclaredIds(b.rest);
    forall x | x in imm && x in StmtIds(b.first)
      ensures x in DeclaredBy(b.first)
    {
      assert x in imm * BlockIds(b);
    }
  }

  lemma AheadRest(imm: set<Id>, b: Block, own: set<Id>, scope: set<Id>, sub: Sub)
    requires b.Cons? && WellScoped(b, scope) && Ahead(imm, BlockIds(b), Declared(b), scope, sub) && own <= scope
    requires UsedOnce(imm, b, own, sub.values.Keys)
    requires Settled(imm, scope + Defines(b.first), ElimStmt(imm, b.first, sub).1)
    ensures Ahead(imm, BlockIds(b.rest), Declared(b.rest), scope + Defines(b.first), ElimStmt(imm, b.first, sub).1)
    ensures ElimStmt(imm, b.first, sub).1.values.Keys == sub.values.Keys + StoredBy(imm, b.first)
    ensures own + Declares(b.first) <= scope + Defines(b.first)
  {
    var s, rest := b.first, b.rest;
    StmtScopedDistinct(s, scope);
    StmtExtends(imm, s, own, sub);
    StmtStoredOwn(imm, s, own, sub.values.Keys);
    StoredByVars(imm, s);
    DeclaredByIds(s);
    forall x | x in imm && x in BlockIds(rest)
      ensures x in Declared(rest)
    {
      assert x in imm * BlockIds(b);
    }
    assert StoredBy(imm, s) <= own + StmtIds(s);
    assert (scope + StmtIds(s)) !! BlockIds(rest);
  }

  /** What the pass leaves of a statement. */
  ghost predicate LeftExactly(imm: set<Id>, s: Stmt, scope: set<Id>, sub: Sub) {
    var k, after := ElimStmt(imm, s, sub).0, ElimStmt(imm, s, sub).1;
    var was, now := Target(imm, scope, sub), Target(imm, scope + Defines(s), after);
    if k.Erased? then now == was && StmtClean(imm, s, sub)
    else
      && StmtIds(k.stmt) <= StmtIds(s) && Defines(k.stmt) == Defines(s) && now == was + Defines(s)
      && (StmtScoped(k.stmt, was) <==> StmtClean(imm, s, sub))
  }

  lemma {:induction false} StmtScopedExactly(imm: set<Id>, s: Stmt, own: set<Id>, scope: set<Id>, sub: Sub)
    requires StmtScoped(s, scope) && Ahead(imm, StmtIds(s), DeclaredBy(s), scope, sub) && own <= scope
    requires StmtUsedOnce(imm, s, own, sub.values.Keys)
    ensures Settled(imm, scope + Defines(s), ElimStmt(imm, s, sub).1) && LeftExactly(imm, s, scope, sub)
    decreases s
  {
    match s
    case If(_, _, _, _) => IfScopedExactly(imm, s, scope, sub);
    case Loop(_, _, _) => LoopScopedExactly(imm, s, scope, sub);
    case Alloca(_) =>
    case Load(id, x) =>
      assert id !in imm * StmtIds(s);
      if x in imm {
        LoadErasedExactly(imm, id, x, scope, sub);
      } else {
        OneOperand(imm, scope, sub, x);
      }
    case Store(_, x, v, _) => StoreScopedExactly(imm, s, scope, sub);
    case _ =>
      assert s.id !in imm * StmtIds(s);
      OperandsExactly(imm, s, scope, sub);
      KeptExactly(imm, s, scope, sub);
  }

  lemma OneOperand(imm: set<Id>, scope: set<Id>, sub: Sub, a: Id)
    requires a in scope && Settled(imm, scope, sub)
    ensures Rename(sub, a) in Target(imm, scope, sub) <==> Rename(sub, a) !in imm
  {
  }

  lemma OperandsExactly(imm: set<Id>, s: Stmt, scope: set<Id>, sub: Sub)
    requires Operands(s) <= scope && Settled(imm, scope, sub)
    ensures RenamedOperands(sub, s) <= Target(imm, scope, sub) <==> RenamedOperands(sub, s) !! imm
  {
  }

  lemma LoadErasedExactly(imm: set<Id>, id: Id, x: Id, scope: set<Id>, sub: Sub)
    requires Settled(imm, scope, sub) && x in scope && x in imm && x in sub.values && id !in scope
             && id !in sub.replaced && id !in imm
    requires sub.values.Keys <= imm
    ensures Settled(imm, scope + {id}, ElimStmt(imm, Load(id, x), sub).1) && LeftExactly(imm, Load(id, x), scope, sub)
  {
    var after := ElimStmt(imm, Load(id, x), sub).1;
    assert Target(imm, scope + {id}, after) == Target(imm, scope, sub);
    forall a | a in scope + {id}
      ensures Rename(after, a) in Target(imm, scope, sub) + imm
    {
      if a != id {
        assert Rename(after, a) == Rename(sub, a);
      }
    }
  }

  lemma StoreScopedExactly(imm: set<Id>, s: Stmt, scope: set<Id>, sub: Sub)
    requires s.Store? && StmtScoped(s, scope) && Ahead(imm, StmtIds(s), {}, scope, sub)
    ensures Settled(imm, scope + Defines(s), ElimStmt(imm, s, sub).1) && LeftExactly(imm, s, scope, sub)
  {
    assert scope + Defines(s) == scope;
    OneOperand(imm, scope, sub, s.dest);
    OneOperand(imm, scope, sub, s.val);
  }

  /** Statements that stay and have no blocks. */
  lemma KeptExactly(imm: set<Id>, s: Stmt, scope: set<Id>, sub: Sub)
    requires s.Atomic? || s.Op? || s.Continue? || s.WhileControl?
    requires StmtScoped(s, scope) && Ahead(imm, {s.id}, {}, scope, sub) && s.id !in imm
    requires RenamedOperands(sub, s) <= Target(imm, scope, sub) <==> RenamedOperands(sub, s) !! imm
    ensures Settled(imm, scope + Defines(s), sub) && LeftExactly(imm, s, scope, sub)
  {
    var k := ElimStmt(imm, s, sub).0.stmt;
    assert Operands(k) == RenamedOperands(sub, s) by {
      if s.Op? {
        assert forall i | 0 <= i < |s.operands| :: k.operands[i] == Rename(sub, s.operands[i]);
      }
    }
    assert Target(imm, scope + Defines(s), sub) == Target(imm, scope, sub) + Defines(s);
  }

  /** A nested block changes nothing about what is in scope outside it. */
  lemma NestedTarget(imm: set<Id>, b: Block, ids: set<Id>, scope: set<Id>, sub: Sub)
    requires WellScoped(b, scope) && Ahead(imm, BlockIds(b), Declared(b), scope, sub)
             && UsedOnce(imm, b, {}, sub.values.Keys)
    requires sub.replaced.Keys !! ids && sub.values.Keys !! ids && ids !! BlockIds(b)
    ensures var after := ElimBlock(imm, b, sub).1;
            && Target(imm, scope, after) == Target(imm, scope, sub) && Settled(imm, scope, after)
            && after.replaced.Keys !! ids && after.values.Keys !! ids && after.values.Keys <= imm
            && after.values.Keys == sub.values.Keys + StoredIn(imm, b)
  {
    ScopedDistinct(b, scope);
    ElimExtends(imm, b, {}, sub);
    StoredOwn(imm, b, {}, sub.values.Keys);
    StoredInVars(imm, b);
    DeclaredIds(b);
    LoadsNotVariables(imm, b, sub);
    ExtendsSame(scope, sub, ElimBlock(imm, b, sub).1, StoredIn(imm, b), BlockIds(b));
  }

  lemma {:induction false} LoadsNotVariables(imm: set<Id>, b: Block, sub: Sub)
    requires DistinctIds(b) && sub.replaced.Keys !! imm && imm * BlockIds(b) <= Declared(b)
    ensures ElimBlock(imm, b, sub).1.replaced.Keys !! imm
    decreases b
  {
    if b.Cons? {
      DeclaredByIds(b.first);
      DeclaredIds(b.rest);
      forall x | x in imm
        ensures (x in StmtIds(b.first) ==> x in DeclaredBy(b.first))
                && (x in BlockIds(b.rest) ==> x in Declared(b.rest))
      {
        assert x in BlockIds(b) ==> x in imm * BlockIds(b);
      }
      StmtLoadsNotVariables(imm, b.first, sub);
      LoadsNotVariables(imm, b.rest, ElimStmt(imm, b.first, sub).1);
    }
  }

  lemma {:induction false} StmtLoadsNotVariables(imm: set<Id>, s: Stmt, sub: Sub)
    requires StmtDistinctIds(s) && sub.replaced.Keys !! imm && imm * StmtIds(s) <= DeclaredBy(s)
    ensures ElimStmt(imm, s, sub).1.replaced.Keys !! imm
    decreases s
  {
    match s
    case If(_, _, yes, no) =>
      DeclaredIds(yes);
      DeclaredIds(no);
      forall x | x in imm
        ensures (x in BlockIds(yes) ==> x in Declared(yes)) && (x in BlockIds(no) ==> x in Declared(no))
      {
        assert x in StmtIds(s) ==> x in imm * StmtIds(s);
      }
      LoadsNotVariables(imm, yes, sub);
      LoadsNotVariables(imm, no, ElimBlock(imm, yes, sub).1);
    case Loop(_, _, body) =>
      forall x | x in imm && x in BlockIds(body)
        ensures x in Declared(body)
      {
        assert x in imm * StmtIds(s);
      }
      LoadsNotVariables(imm, body, sub);
    case Load(id, _) => assert id !in imm * {id};
    case _ =>
  }

  lemma {:induction false} IfScopedExactly(imm: set<Id>, s: Stmt, scope: set<Id>, sub: Sub)
    requires s.If? && StmtScoped(s, scope) && Ahead(imm, StmtIds(s), DeclaredBy(s), scope, sub)
    requires StmtUsedOnce(imm, s, {}, sub.values.Keys)
    ensures Settled(imm, scope + Defines(s), ElimStmt(imm, s, sub).1) && LeftExactly(imm, s, scope, sub)
    decreases s, 0
  {
    var yes, no := s.yes, s.no;
    var after := ElimBlock(imm, yes, sub).1;
    BranchesDeclare(imm, s, scope);
    OneOperand(imm, scope, sub, s.cond);
    BlockScopedExactly(imm, yes, {}, scope, sub);
    NestedTarget(imm, yes, BlockIds(no), scope, sub);
    BlockScopedExactly(imm, no, {}, scope, after);
    NestedTarget(imm, no, {}, scope, after);
    assert scope + Defines(s) == scope;
  }

  lemma BranchesDeclare(imm: set<Id>, s: Stmt, scope: set<Id>)
    requires s.If? && StmtScoped(s, scope) && imm * StmtIds(s) <= DeclaredBy(s)
    ensures imm * BlockIds(s.yes) <= Declared(s.yes) && imm * BlockIds(s.no) <= Declared(s.no)
  {
    DeclaredIds(s.yes);
    DeclaredIds(s.no);
    forall x | x in imm
      ensures (x in BlockIds(s.yes) ==> x in Declared(s.yes)) && (x in BlockIds(s.no) ==> x in Declared(s.no))
    {
      assert x in StmtIds(s) ==> x in imm * StmtIds(s);
    }
  }

  lemma BodyDeclares(imm: set<Id>, s: Stmt)
    requires s.Loop? && imm * StmtIds(s) <= DeclaredBy(s)
    ensures imm * BlockIds(s.body) <= Declared(s.body)
  {
    forall x | x in imm && x in BlockIds(s.body)
      ensures x in Declared(s.body)
    {
      assert x in imm * StmtIds(s);
    }
  }

  lemma RenamedSet(sub: Sub, s: Stmt)
    requires s.Loop?
    ensures (set a | a in RenameAll(sub, s.operands)) == RenamedOperands(sub, s)
  {
    var r := RenameAll(sub, s.operands);
    assert forall i | 0 <= i < |r| :: r[i] == Rename(sub, s.operands[i]);
  }

  lemma {:induction false} LoopScopedExactly(imm: set<Id>, s: Stmt, scope: set<Id>, sub: Sub)
    requires s.Loop? && StmtScoped(s, scope) && Ahead(imm, StmtIds(s), DeclaredBy(s), scope, sub)
    requires StmtUsedOnce(imm, s, {}, sub.values.Keys)
    ensures Settled(imm, scope + Defines(s), ElimStmt(imm, s, sub).1) && LeftExactly(imm, s, scope, sub)
    decreases s, 0
  {
    BodyDeclares(imm, s);
    RenamedSet(sub, s);
    OperandsExactly(imm, s, scope, sub);
    BlockScopedExactly(imm, s.body, {}, scope, sub);
    NestedTarget(imm, s.body, {}, scope, sub);
    assert scope + Defines(s) == scope;
  }

  /** Elimination leaves a program, in which every operand is computed before, if and only if no address of
      a reported variable escapes. */
  lemma EliminationScoped(b: Block)
    requires WellScoped(b, {})
    ensures WellScoped(Eliminated(b), {}) <==> NoEscape(Gathered(b), b, NoTaint())
  {
    GatheredUsedOnce(b);
    CleanExactly(b);
    var none := Sub(map[], map[]);
    assert none.values.Keys == {} && Target(Gathered(b), {}, none) == {};
    BlockScopedExactly(Gathered(b), b, {}, {}, none);
  }

  /** Exactly then it also leaves all runs as they were. */
  lemma EliminationExact(b: Block)
    requires WellScoped(b, {})
    ensures NoEscape(Gathered(b), b, NoTaint()) <==>
            WellScoped(Eliminated(b), {}) && forall m: Machine, st, fuel: nat | Fits(m, b) :: SameRun(m, b, st, fuel)
  {
    EliminationScoped(b);
    if NoEscape(Gathered(b), b, NoTaint()) {
      forall m: Machine, st, fuel: nat | Fits(m, b)
        ensures SameRun(m, b, st, fuel)
      {
        EliminationPreserves(m, b, st, fuel);
      }
    }
  }

  ghost predicate SameRun(m: Machine, b: Block, st: State, fuel: nat) {
    SameResult(Gathered(b), ExecBlock(m, b, st, fuel), ExecBlock(m, Eliminated(b), st, fuel))
  }

  /** The reported variables are accessed directly only, if none of them is itself stored. */
  predicate NotStored(vars: set<Id>, b: Block) {
    match b
    case End => true
    case Cons(s, rest) => StmtNotStored(vars, s) && NotStored(vars, rest)
  }

  predicate StmtNotStored(vars: set<Id>, s: Stmt) {
    match s
    case Store(_, _, v, _) => v !in vars
    case If(_, _, yes, no) => NotStored(vars, yes) && NotStored(vars, no)
    case Loop(_, _, body) => NotStored(vars, body)
    case _ => true
  }

  lemma {:induction false} UsedOnceDirect(vars: set<Id>, b: Block, own: set<Id>, stored: set<Id>)
    requires UsedOnce(vars, b, own, stored)
    ensures DirectOnly(vars, b) <==> NotStored(vars, b)
    decreases b
  {
    if b.Cons? {
      StmtUsedOnceDirect(vars, b.first, own, stored);
      UsedOnceDirect(vars, b.rest, own + Declares(b.first), stored + StoredBy(vars, b.first));
    }
  }

  lemma {:induction false} StmtUsedOnceDirect(vars: set<Id>, s: Stmt, own: set<Id>, stored: set<Id>)
    requires StmtUsedOnce(vars, s, own, stored)
    ensures StmtDirectOnly(vars, s) <==> StmtNotStored(vars, s)
    decreases s
  {
    match s
    case If(_, _, yes, no) =>
      UsedOnceDirect(vars, yes, {}, stored);
      UsedOnceDirect(vars, no, {}, stored + StoredIn(vars, yes));
    case Loop(_, _, body) => UsedOnceDirect(vars, body, {}, stored);
    case _ =>
  }

  /** The reported variables are accessed by loads and stores only if and only if no store has one of them
      as its value. */
  lemma GatheredDirect(b: Block)
    requires WellScoped(b, {})
    ensures DirectOnly(Gathered(b), b) <==> NotStored(Gathered(b), b)
  {
    GatheredUsedOnce(b);
    UsedOnceDirect(Gathered(b), b, {}, {});
  }

  /** Then no address escapes. The converse does not hold: an address may be stored and never used. */
  lemma NotStoredNoEscape(b: Block)
    requires WellScoped(b, {}) && NotStored(Gathered(b), b)
    ensures NoEscape(Gathered(b), b, NoTaint())
  {
    GatheredUsedOnce(b);
    NeverTainted(Gathered(b), b, {}, {});
  }

  lemma {:induction false} NeverTainted(vars: set<Id>, b: Block, own: set<Id>, stored: set<Id>)
    requires UsedOnce(vars, b, own, stored) && NotStored(vars, b)
    ensures NoEscape(vars, b, NoTaint()) && TaintBlock(vars, b, NoTaint()) == NoTaint()
    decreases b
  {
    if b.Cons? {
      StmtNeverTainted(vars, b.first, own, stored);
      NeverTainted(vars, b.rest, own + Declares(b.first), stored + StoredBy(vars, b.first));
    }
  }

  lemma {:induction false} StmtNeverTainted(vars: set<Id>, s: Stmt, own: set<Id>, stored: set<Id>)
    requires StmtUsedOnce(vars, s, own, stored) && StmtNotStored(vars, s)
    ensures StmtNoEscape(vars, s, NoTaint()) && TaintStmt(vars, s, NoTaint()) == NoTaint()
    decreases s
  {
    match s
    case If(_, _, yes, no) =>
      NeverTainted(vars, yes, {}, stored);
      NeverTainted(vars, no, {}, stored + StoredIn(vars, yes));
    case Loop(_, _, body) => NeverTainted(vars, body, {}, stored);
    case _ =>
  }

  /** `EliminateImmutableLocalVars::run`. */
  method EliminateImmutable(b: Block) returns (r: Block)
    requires WellScoped(b, {}) && Addressed(Loads(b), b)
    ensures r == Eliminated(b) && BlockIds(r) == BlockIds(b) - ErasedIn(Gathered(b), b)
    ensures NoEscape(Gathered(b), b, NoTaint()) <==>
            WellScoped(r, {}) && forall m: Machine, st, fuel: nat | Fits(m, b) :: SameRun(m, b, st, fuel)
  {
    var immutable := GatherImmutable(b);
    var pass := new EliminateImmutableLocalVars(immutable);
    r := pass.VisitBlock(b, Loads(b));
    LeftIds(immutable, b, {}, Sub(map[], map[]));
    EliminationExact(b);
  }

  /******* A variable that is itself stored *******/

  /** Variable 1 is stored once, and then is itself the value of the one store to variable 3. */
  function Storing(tail: Block): Block {
    Cons(Op(0, false, []),
         Cons(Alloca(1), Cons(Store(2, 1, 0, true), Cons(Alloca(3), Cons(Store(4, 3, 1, true), tail)))))
  }

  /** What was stored is loaded and used. */
  function Escaped(): Block {
    Cons(Load(5, 3), Cons(Op(6, false, [5]), End))
  }

  function Escaping(): Block {
    Storing(Escaped())
  }

  /** Every other statement reports the values of its operands. */
  function Reporting(): Machine {
    Machine({1, 3}, x => x + 7, (id, vals) => 0, (id, vals, w) => (0, w + vals), (id, vals, w) => (false, w),
            (x, v) => v, (id, x, v) => v, v => v != 0)
  }

  /** The pass reports both, since a store does not count as a use of its value. Without variable 1, the
      last statement has an operand that nothing computes, and the run reports something else. */
  lemma StoredVariableEscapes(st: State)
    requires st == State(map[], map[], [])
    ensures WellScoped(Escaping(), {}) && Gathered(Escaping()) == {1, 3} && Fits(Reporting(), Escaping())
    ensures Addressed(Loads(Escaping()), Escaping())
    ensures !NoEscape({1, 3}, Escaping(), NoTaint()) && !WellScoped(Eliminated(Escaping()), {})
    ensures !SameRun(Reporting(), Escaping(), st, 0)
  {
    EscapingScoped();
    EscapingAddressed();
    StoringStatuses(Escaped());
    EscapingFits();
    EscapingLeft();
    EscapingRuns(st);
    DanglingOperand();
    EliminationScoped(Escaping());
  }

  lemma DanglingOperand()
    ensures !WellScoped(Cons(Op(0, false, []), Cons(Op(6, false, [1]), End)), {})
  {
    assert 1 in Operands(Op(6, false, [1]));
  }

  /** If it is not loaded again, nothing is lost, although a reported variable is stored. */
  lemma StoredVariableUnused()
    ensures Gathered(Storing(End)) == {1, 3} && !NotStored({1, 3}, Storing(End))
            && NoEscape({1, 3}, Storing(End), NoTaint())
  {
    StoringStatuses(End);
  }

  lemma EscapingAddressed()
    ensures Addressed(Loads(Escaping()), Escaping())
  {
    var tail := Escaped();
    assert Loads(Escaping()) == Loads(tail);
  }

  lemma EscapingFits()
    requires Gathered(Escaping()) == {1, 3}
    ensures Fits(Reporting(), Escaping())
  {
    var b := Escaping();
    assert Reporting().direct - Gathered(b) == {};
    NothingDirect(b);
    assert 1 in Declared(b) && 3 in Declared(b) by {
      var b3 := b.rest.rest.rest;
      assert 3 in Declared(b3) && Declared(b3) <= Declared(b.rest.rest) <= Declared(b.rest) <= Declared(b);
      assert 1 in Declared(b.rest);
    }
  }

  lemma {:induction false} NothingDirect(b: Block)
    ensures DirectOnly({}, b)
    decreases b
  {
    if b.Cons? {
      var s := b.first;
      if s.If? {
        NothingDirect(s.yes);
        NothingDirect(s.no);
      } else if s.Loop? {
        NothingDirect(s.body);
      }
      NothingDirect(b.rest);
    }
  }

  lemma EscapingLeft()
    requires Gathered(Escaping()) == {1, 3}
    ensures Eliminated(Escaping()) == Cons(Op(0, false, []), Cons(Op(6, false, [1]), End))
  {
    var imm: set<Id> := {1, 3};
    var sub, all := Sub(map[1 := 0, 3 := 1], map[]), Sub(map[1 := 0, 3 := 1], map[5 := 1]);
    assert RenameAll(all, [5]) == [1];
    assert ElimBlock(imm, Escaped(), sub).0 == Cons(Op(6, false, [1]), End);
    assert RenameAll(Sub(map[], map[]), []) == [];
  }

  lemma EscapingRuns(st: State)
    requires st == State(map[], map[], []) && Gathered(Escaping()) == {1, 3}
    requires Eliminated(Escaping()) == Cons(Op(0, false, []), Cons(Op(6, false, [1]), End))
    ensures !SameRun(Reporting(), Escaping(), st, 0)
  {
    var m := Reporting();
    var s0 := State(map[0 := 0], map[], []);
    var s4 := State(map[0 := 0, 1 := 8, 3 := 10], map[1 := 0, 3 := 8], []);
    var s5 := s4.(env := s4.env[5 := 8]);
    assert ExecStmt(m, Op(0, false, []), st, 0) == Done(Fell, s0);
    assert ExecBlock(m, Escaping(), st, 0) == ExecBlock(m, Escaping().rest, s0, 0);
    StoringRuns(Escaped(), s0, s4);
    assert ExecStmt(m, Load(5, 3), s4, 0) == Done(Fell, s5);
    assert Vals(s5.env, [5]) == [8] && Vals(s0.env, [1]) == [0];
    assert ExecStmt(m, Op(6, false, [5]), s5, 0).state.world == [8];
    assert ExecBlock(m, Escaping(), st, 0).state.world == [8];
    assert ExecStmt(m, Op(6, false, [1]), s0, 0).state.world == [0];
    assert ExecBlock(m, Eliminated(Escaping()), st, 0) == ExecBlock(m, Cons(Op(6, false, [1]), End), s0, 0);
  }

  lemma StoringRuns(tail: Block, s0: State, s4: State)
    requires s0 == State(map[0 := 0], map[], [])
    requires s4 == State(map[0 := 0, 1 := 8, 3 := 10], map[1 := 0, 3 := 8], [])
    ensures ExecBlock(Reporting(), Storing(tail).rest, s0, 0) == ExecBlock(Reporting(), tail, s4, 0)
  {
    var m, b := Reporting(), Storing(tail);
    var s1 := State(map[0 := 0, 1 := 8], map[1 := 0], []);
    var s3 := State(map[0 := 0, 1 := 8, 3 := 10], map[1 := 0, 3 := 0], []);
    assert ExecStmt(m, Alloca(1), s0, 0) == Done(Fell, s1);
    assert ExecStmt(m, Store(2, 1, 0, true), s1, 0) == Done(Fell, s1);
    assert ExecStmt(m, Alloca(3), s1, 0) == Done(Fell, s3);
    assert ExecStmt(m, Store(4, 3, 1, true), s3, 0) == Done(Fell, s4);
    assert ExecBlock(m, b.rest.rest.rest, s1, 0) == ExecBlock(m, b.rest.rest.rest.rest, s3, 0);
    assert ExecBlock(m, b.rest.rest.rest.rest, s3, 0) == ExecBlock(m, tail, s4, 0);
  }

  lemma EscapedScoped(b4: Block)
    requires b4 == Cons(Store(4, 3, 1, true), Escaped())
    ensures WellScoped(b4, {0, 1, 3}) && BlockIds(b4) == {4, 5, 6}
  {
    var b6 := Cons(Op(6, false, [5]), End);
    assert BlockIds(b6) == {6} && Operands(Op(6, false, [5])) == {5};
    assert WellScoped(b6, {0, 1, 3, 5});
    var b5 := Cons(Load(5, 3), b6);
    assert BlockIds(b5) == {5, 6} && {0, 1, 3} + {5} == {0, 1, 3, 5};
    assert WellScoped(b5, {0, 1, 3});
    assert {0, 1, 3} + {} == {0, 1, 3};
  }

  lemma EscapingScoped()
    ensures WellScoped(Escaping(), {})
  {
    var b4 := Cons(Store(4, 3, 1, true), Escaped());
    EscapedScoped(b4);
    var b3 := Cons(Alloca(3), b4);
    assert BlockIds(b3) == {3, 4, 5, 6} && {0, 1} + {3} == {0, 1, 3};
    assert WellScoped(b3, {0, 1});
    var b2 := Cons(Store(2, 1, 0, true), b3);
    assert BlockIds(b2) == {2, 3, 4, 5, 6} && {0, 1} + {} == {0, 1};
    assert WellScoped(b2, {0, 1});
    var b1 := Cons(Alloca(1), b2);
    assert BlockIds(b1) == {1, 2, 3, 4, 5, 6} && {0} + {1} == {0, 1};
    assert WellScoped(b1, {0}) && {} + {0} == {0} && Operands(Op(0, false, [])) == {};
  }

  lemma StoringStatuses(tail: Block)
    requires tail == End || tail == Escaped()
    ensures Gathered(Storing(tail)) == {1, 3}
  {
    var st := map[1 := StoredOnce, 3 := StoredOnce];
    assert Invalidate(st, Operands(Op(6, false, [5]))) == st;
    assert AfterBlock(st, {1, 3}, tail) == st;
    var early: Statuses := map[];
    assert Invalidate(early, Operands(Op(0, false, []))) == early;
    assert {} + {} + {1} + {} + {3} + {} == {1, 3};
    assert AfterBlock(map[], {}, Storing(tail)) == st;
  }
}

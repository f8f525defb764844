/**
 Statements in static single assignment form with local variables and structured control flow, and how
 they run. Operands are the numbers of the statements that compute them.
 */
module Ssa {

  type Id = nat

  datatype Block = End | Cons(first: Stmt, rest: Block)

  /** `sameType` says that the stored value has the type of the variable. `Op` is any statement that
      is not listed, `pure` when it only computes a value from its operands; `Loop` is a range-for,
      struct-for or while. */
  datatype Stmt =
    | Alloca(id: Id)
    | Load(id: Id, src: Id)
    | Store(id: Id, dest: Id, val: Id, sameType: bool)
    | Atomic(id: Id, dest: Id, val: Id)
    | Op(id: Id, pure: bool, operands: seq<Id>)
    | If(id: Id, cond: Id, yes: Block, no: Block)
    | Loop(id: Id, operands: seq<Id>, body: Block)
    | Continue(id: Id)
    | WhileControl(id: Id, cond: Id)

  /** Everything outside the local variables that are only accessed directly. */
  type World = seq<int>

  /** What the statements do. `direct` holds the variables accessed by loads, stores and atomics only;
      all other variables are part of the world.
      The value of a variable itself is its address. */
  datatype Machine = Machine(
    direct: set<Id>,
    address: Id -> int,
    eval: (Id, seq<int>) -> int,
    step: (Id, seq<int>, World) -> (int, World),
    again: (Id, seq<int>, World) -> (bool, World),
    cast: (Id, int) -> int,
    atomic: (Id, int, int) -> int,
    truth: int -> bool)

  datatype State = State(env: map<Id, int>, mem: map<Id, int>, world: World)

  datatype Exit = Fell | Continued | Broke

  datatype Outcome = Diverged | Done(exit: Exit, state: State)

  function Val(f: map<Id, int>, id: Id): int {
    if id in f then f[id] else 0
  }

  function Vals(f: map<Id, int>, ids: seq<Id>): (r: seq<int>)
    ensures |r| == |ids| && forall i | 0 <= i < |ids| :: r[i] == Val(f, ids[i])
  {
    seq(|ids|, i requires 0 <= i < |ids| => Val(f, ids[i]))
  }

  /** A statement whose effect is on the world. */
  function Step(m: Machine, id: Id, vals: seq<int>, st: State): Outcome {
    var r := m.step(id, vals, st.world);
    Done(Fell, State(st.env[id := r.0], st.mem, r.1))
  }

  /** One statement. `fuel` bounds the iterations of loops; a run that needs more has diverged. */
  function ExecStmt(m: Machine, s: Stmt, st: State, fuel: nat): Outcome
    decreases fuel, s
  {
    match s
    case Alloca(x) =>
      if x in m.direct then Done(Fell, State(st.env[x := m.address(x)], st.mem[x := 0], st.world))
      else Step(m, x, [], st)
    case Load(id, x) =>
      if x in m.direct then Done(Fell, st.(env := st.env[id := Val(st.mem, x)]))
      else Step(m, id, [Val(st.env, x)], st)
    case Store(id, x, v, sameType) =>
      if x in m.direct then
        Done(Fell, st.(mem := st.mem[x := if sameType then Val(st.env, v) else m.cast(x, Val(st.env, v))]))
      else Step(m, id, [Val(st.env, x), Val(st.env, v)], st)
    case Atomic(id, x, v) =>
      if x in m.direct then
        Done(Fell, State(st.env[id := Val(st.mem, x)], st.mem[x := m.atomic(id, Val(st.mem, x), Val(st.env, v))],
                         st.world))
      else Step(m, id, [Val(st.env, x), Val(st.env, v)], st)
    case Op(id, pure, ops) =>
      if pure then Done(Fell, st.(env := st.env[id := m.eval(id, Vals(st.env, ops))]))
      else Step(m, id, Vals(st.env, ops), st)
    case If(_, c, yes, no) =>
      if m.truth(Val(st.env, c)) then ExecBlock(m, yes, st, fuel) else ExecBlock(m, no, st, fuel)
    case Loop(id, ops, body) => ExecLoop(m, id, Vals(st.env, ops), body, st, fuel)
    case Continue(_) => Done(Continued, st)
    case WhileControl(_, c) => Done(if m.truth(Val(st.env, c)) then Fell else Broke, st)
  }

  function ExecBlock(m: Machine, b: Block, st: State, fuel: nat): Outcome
    decreases fuel, b
  {
    match b
    case End => Done(Fell, st)
    case Cons(s, rest) =>
      var o := ExecStmt(m, s, st, fuel);
      if o.Done? && o.exit.Fell? then ExecBlock(m, rest, o.state, fuel) else o
  }

  /** Iterations until the world, or a `WhileControl`, says stop. */
  function ExecLoop(m: Machine, id: Id, vals: seq<int>, body: Block, st: State, fuel: nat): Outcome
    decreases fuel, body, 1
  {
    var r := m.again(id, vals, st.world);
    var entered := st.(world := r.1);
    if !r.0 then Done(Fell, entered)
    else if fuel == 0 then Diverged
    else
      var o := ExecBlock(m, body, entered, fuel - 1);
      if o.Diverged? then o
      else if o.exit.Broke? then Done(Fell, o.state)
      else ExecLoop(m, id, vals, body, o.state, fuel - 1)
  }

  /******* Scopes *******/

  /** The numbers of all statements, nested ones included. */
  function StmtIds(s: Stmt): set<Id> {
    match s
    case If(id, _, yes, no) => {id} + BlockIds(yes) + BlockIds(no)
    case Loop(id, _, body) => {id} + BlockIds(body)
    case _ => {s.id}
  }

  function BlockIds(b: Block): set<Id> {
    match b
    case End => {}
    case Cons(s, rest) => StmtIds(s) + BlockIds(rest)
  }

  /** The operands that the statement itself names. */
  function Operands(s: Stmt): set<Id> {
    match s
    case Alloca(_) => {}
    case Load(_, x) => {x}
    case Store(_, x, v, _) => {x, v}
    case Atomic(_, x, v) => {x, v}
    case Op(_, _, ops) => set a | a in ops
    case If(_, c, _, _) => {c}
    case Loop(_, ops, _) => set a | a in ops
    case Continue(_) => {}
    case WhileControl(_, c) => {c}
  }

  /** The statements whose value others may use. */
  function Defines(s: Stmt): set<Id> {
    if s.Alloca? || s.Load? || s.Atomic? || s.Op? then {s.id} else {}
  }

  /** The numbers are all different and new, and operands are in scope: computed before, in the same or
      in an enclosing block. */
  predicate WellScoped(b: Block, scope: set<Id>) {
    match b
    case End => true
    case Cons(s, rest) =>
      && StmtScoped(s, scope)
      && WellScoped(rest, scope + Defines(s))
      && StmtIds(s) !! BlockIds(rest)
  }

  predicate StmtScoped(s: Stmt, scope: set<Id>) {
    && Operands(s) <= scope
    && StmtIds(s) !! scope
    && match s
       case If(id, _, yes, no) => WellScoped(yes, scope) && WellScoped(no, scope) && BlockIds(yes) !! BlockIds(no)
         && id !in BlockIds(yes) + BlockIds(no)
       case Loop(id, _, body) => WellScoped(body, scope) && id !in BlockIds(body)
       case _ => true
  }

  function Declares(s: Stmt): set<Id> {
    if s.Alloca? then {s.id} else {}
  }

  /** The variables that a block declares, nested blocks included. */
  function Declared(b: Block): set<Id> {
    match b
    case End => {}
    case Cons(s, rest) => DeclaredBy(s) + Declared(rest)
  }

  function DeclaredBy(s: Stmt): set<Id> {
    match s
    case Alloca(x) => {x}
    case If(_, _, yes, no) => Declared(yes) + Declared(no)
    case Loop(_, _, body) => Declared(body)
    case _ => {}
  }
}

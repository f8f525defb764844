/**
 How the runs that the graph represents relate to the runs of the program: a `while` loop really
 ends at a `while_control` only, while the graph also lets a `continue` leave it.
 */
module CfgRuns {
  import opened Options
  import opened Cfg
  import CfgBuilder

  /** The block holds a `continue` of the loop around it. */
  predicate HasContinue(b: Block)
    decreases b
  {
    exists i | 0 <= i < |b.stmts| :: StmtHasContinue(b.stmts[i])
  }

  predicate StmtHasContinue(st: Stmt)
    decreases st
  {
    match st
    case Plain => false
    case Continue => true
    case WhileControl => false
    case If(t, e) => (t.Some? && HasContinue(t.value)) || (e.Some? && HasContinue(e.value))
    case Loop(_, _) => false
  }

  /** No `while` loop holds a `continue` of its own. */
  predicate Tame(b: Block)
    decreases b
  {
    forall i | 0 <= i < |b.stmts| :: StmtTame(b.stmts[i])
  }

  predicate StmtTame(st: Stmt)
    decreases st
  {
    match st
    case Plain => true
    case Continue => true
    case WhileControl => true
    case If(t, e) => (t.Some? ==> Tame(t.value)) && (e.Some? ==> Tame(e.value))
    case Loop(body, whileTrue) => Tame(body) && (whileTrue ==> !HasContinue(body))
  }

  /** A run of a `while` loop with this body. */
  ghost predicate WhileRun(body: Block, tr: seq<Loc>) {
    exists n: nat, t1, t2 :: Iterations(false, body, n, t1) && LastIteration(false, body, true, t2) && tr == t1 + t2
  }

  /** Wherever an iteration of a `while` loop ends in `continue`, some run of the loop could have ended, with
      the same trace. */
  ghost predicate EndsLike(body: Block) {
    forall tr :: EndsLikeAt(body, tr)
  }

  ghost predicate EndsLikeAt(body: Block, tr: seq<Loc>) {
    BlockExec(false, body, Continued, tr) ==> WhileRun(body, tr)
  }

  /** That is so for all `while` loops of a block. */
  ghost predicate Harmless(b: Block)
    decreases b
  {
    forall i | 0 <= i < |b.stmts| :: StmtHarmless(b.stmts[i])
  }

  ghost predicate StmtHarmless(st: Stmt)
    decreases st
  {
    match st
    case Plain => true
    case Continue => true
    case WhileControl => true
    case If(t, e) => (t.Some? ==> Harmless(t.value)) && (e.Some? ==> Harmless(e.value))
    case Loop(body, whileTrue) => Harmless(body) && (whileTrue ==> EndsLike(body))
  }

  /** In particular if no `while` loop holds a `continue` of its own. */
  lemma {:induction false} TameHarmless(b: Block)
    requires Tame(b)
    ensures Harmless(b)
    decreases b
  {
    forall i | 0 <= i < |b.stmts|
      ensures StmtHarmless(b.stmts[i])
    {
      StmtTameHarmless(b.stmts[i]);
    }
  }

  lemma {:induction false} StmtTameHarmless(st: Stmt)
    requires StmtTame(st)
    ensures StmtHarmless(st)
    decreases st
  {
    match st
    case If(t, e) =>
      if t.Some? {
        TameHarmless(t.value);
      }
      if e.Some? {
        TameHarmless(e.value);
      }
    case Loop(body, whileTrue) =>
      TameHarmless(body);
      if whileTrue {
        forall tr
          ensures EndsLikeAt(body, tr)
        {
          NeverContinues(false, body, |body.stmts|, tr);
        }
      }
    case _ =>
  }

  lemma {:induction false} NeverContinues(loose: bool, b: Block, k: nat, tr: seq<Loc>)
    requires k <= |b.stmts| && !HasContinue(b)
    ensures !EarlyExec(loose, b, k, Continued, tr)
    decreases b, 1, k
  {
    if k > 0 {
      NeverContinues(loose, b, k - 1, tr);
      var i := k - 1;
      forall t
        ensures !StmtExec(loose, b.id, i, b.stmts[i], Continued, t)
      {
        StmtNeverContinues(loose, b.id, i, b.stmts[i], t);
      }
    }
  }

  lemma {:induction false} StmtNeverContinues(loose: bool, bid: nat, i: int, st: Stmt, tr: seq<Loc>)
    requires !StmtHasContinue(st)
    ensures !StmtExec(loose, bid, i, st, Continued, tr)
    decreases st, 0, 0
  {
    if st.If? {
      if st.trueBlock.Some? {
        NeverContinues(loose, st.trueBlock.value, |st.trueBlock.value.stmts|, tr);
      }
      if st.falseBlock.Some? {
        NeverContinues(loose, st.falseBlock.value, |st.falseBlock.value.stmts|, tr);
      }
      assert !BranchExec(loose, st.trueBlock, Continued, tr) && !BranchExec(loose, st.falseBlock, Continued, tr);
    }
  }

  /** A run of one kind is a run of the other kind, if that is the loose kind or the block is tame. */
  lemma {:induction false} PrefixAgrees(p: bool, q: bool, b: Block, k: nat, tr: seq<Loc>)
    requires (q || Harmless(b)) && k <= |b.stmts| && PrefixExec(p, b, k, tr)
    ensures PrefixExec(q, b, k, tr)
    decreases b, 1, k
  {
    if k > 0 {
      var t1, t2 :| PrefixExec(p, b, k - 1, t1) && StmtExec(p, b.id, k - 1, b.stmts[k - 1], Normal, t2)
        && tr == t1 + t2;
      PrefixAgrees(p, q, b, k - 1, t1);
      StmtAgrees(p, q, b.id, k - 1, b.stmts[k - 1], Normal, t2);
    }
  }

  lemma {:induction false} EarlyAgrees(p: bool, q: bool, b: Block, k: nat, o: Outcome, tr: seq<Loc>)
    requires (q || Harmless(b)) && k <= |b.stmts| && EarlyExec(p, b, k, o, tr)
    ensures EarlyExec(q, b, k, o, tr)
    decreases b, 2, k
  {
    if EarlyExec(p, b, k - 1, o, tr) {
      EarlyAgrees(p, q, b, k - 1, o, tr);
    } else {
      var t1, t2 :| PrefixExec(p, b, k - 1, t1) && StmtExec(p, b.id, k - 1, b.stmts[k - 1], o, t2) && tr == t1 + t2;
      PrefixAgrees(p, q, b, k - 1, t1);
      StmtAgrees(p, q, b.id, k - 1, b.stmts[k - 1], o, t2);
    }
  }

  lemma {:induction false} BlockAgrees(p: bool, q: bool, b: Block, o: Outcome, tr: seq<Loc>)
    requires (q || Harmless(b)) && BlockExec(p, b, o, tr)
    ensures BlockExec(q, b, o, tr)
    decreases b, 3, 0
  {
    if o.Normal? {
      PrefixAgrees(p, q, b, |b.stmts|, tr);
    } else {
      EarlyAgrees(p, q, b, |b.stmts|, o, tr);
    }
  }

  lemma {:induction false} IterationsAgree(p: bool, q: bool, b: Block, n: nat, tr: seq<Loc>)
    requires (q || Harmless(b)) && Iterations(p, b, n, tr)
    ensures Iterations(q, b, n, tr)
    decreases b, 4, n
  {
    if n > 0 {
      var t1, t2 :| Iterations(p, b, n - 1, t1) && IterationGoesOn(p, b, t2) && tr == t1 + t2;
      IterationsAgree(p, q, b, n - 1, t1);
      BlockAgrees(p, q, b, if BlockExec(p, b, Normal, t2) then Normal else Continued, t2);
      assert IterationGoesOn(q, b, t2);
    }
  }

  /** A last iteration of one kind is one of the other kind, unless it is a `continue` that leaves a `while`. */
  lemma {:induction false} LastAgrees(p: bool, q: bool, body: Block, whileTrue: bool, tr: seq<Loc>)
    requires (q || Harmless(body)) && LastIteration(p, body, whileTrue, tr)
    ensures LastIteration(q, body, whileTrue, tr) || (whileTrue && BlockExec(q, body, Continued, tr))
    decreases body, 4, 0
  {
    if BlockExec(p, body, Broke, tr) {
      BlockAgrees(p, q, body, Broke, tr);
    } else if BlockExec(p, body, Continued, tr) {
      BlockAgrees(p, q, body, Continued, tr);
    }
  }

  lemma {:induction false} IterationsJoin(loose: bool, b: Block, m: nat, n: nat, t: seq<Loc>, u: seq<Loc>)
    requires Iterations(loose, b, m, t) && Iterations(loose, b, n, u)
    ensures Iterations(loose, b, m + n, t + u)
    decreases n
  {
    if n == 0 {
      assert t + u == t;
    } else {
      var u1, u2 :| Iterations(loose, b, n - 1, u1) && IterationGoesOn(loose, b, u2) && u == u1 + u2;
      IterationsJoin(loose, b, m, n - 1, t, u1);
      Assoc(t, u1, u2);
      assert Iterations(loose, b, m + n - 1, t + u1) && t + u == (t + u1) + u2;
    }
  }

  /** Iterations, and then a run of the loop, are a run of the loop. */
  lemma LoopGoesOn(body: Block, n: nat, t: seq<Loc>, u: seq<Loc>, bid: nat, i: int)
    requires Iterations(false, body, n, t) && WhileRun(body, u)
    ensures StmtExec(false, bid, i, Loop(body, true), Normal, t + u)
  {
    var k: nat, u1, u2 :| Iterations(false, body, k, u1) && LastIteration(false, body, true, u2) && u == u1 + u2;
    IterationsJoin(false, body, n, k, t, u1);
    Assoc(t, u1, u2);
  }

  lemma {:induction false} StmtAgrees(p: bool, q: bool, bid: nat, i: int, st: Stmt, o: Outcome, tr: seq<Loc>)
    requires (q || StmtHarmless(st)) && StmtExec(p, bid, i, st, o, tr)
    ensures StmtExec(q, bid, i, st, o, tr)
    decreases st, 0, 0
  {
    match st
    case Plain =>
    case Continue =>
    case WhileControl =>
    case If(t, e) =>
      if BranchExec(p, t, o, tr) {
        if t.Some? {
          BlockAgrees(p, q, t.value, o, tr);
        }
        assert BranchExec(q, t, o, tr);
      } else if e.Some? {
        BlockAgrees(p, q, e.value, o, tr);
      }
    case Loop(body, whileTrue) =>
      var n: nat, t1, t2 :| Iterations(p, body, n, t1) && LastIteration(p, body, whileTrue, t2) && tr == t1 + t2;
      IterationsAgree(p, q, body, n, t1);
      LastAgrees(p, q, body, whileTrue, t2);
      if !LastIteration(q, body, whileTrue, t2) {
        assert EndsLikeAt(body, t2);
        LoopGoesOn(body, n, t1, t2, bid, i);
      }
  }

  /** Every terminating run of the program is a path from the start node to the final node that
      spells the statements the run executed. */
  lemma RunsArePaths(g: Graph, final: nat, root: Block, tr: seq<Loc>)
    requires CfgBuilder.Represents(g, final, root) && BlockExec(false, root, Normal, tr)
    ensures Path(g, 0, final, tr)
  {
    BlockAgrees(false, true, root, Normal, tr);
  }

  /** If no `continue` leaves a `while` where it could not end, the graph is exact. */
  lemma PathsAreRuns(g: Graph, final: nat, root: Block, tr: seq<Loc>)
    requires CfgBuilder.Represents(g, final, root) && Harmless(root)
    ensures Path(g, 0, final, tr) <==> BlockExec(false, root, Normal, tr)
  {
    if BlockExec(true, root, Normal, tr) {
      BlockAgrees(true, false, root, Normal, tr);
    }
    if BlockExec(false, root, Normal, tr) {
      BlockAgrees(false, true, root, Normal, tr);
    }
  }

  /** For a program that is one `while` loop, this condition on the loop is also necessary. */
  lemma WhileExactly(g: Graph, final: nat, id: nat, body: Block)
    requires CfgBuilder.Represents(g, final, Block(id, [Loop(body, true)])) && Harmless(body)
    ensures EndsLike(body) <==>
            forall tr :: Path(g, 0, final, tr) <==> BlockExec(false, Block(id, [Loop(body, true)]), Normal, tr)
  {
    var root := Block(id, [Loop(body, true)]);
    if EndsLike(body) {
      forall tr
        ensures Path(g, 0, final, tr) <==> BlockExec(false, root, Normal, tr)
      {
        assert Harmless(root);
        PathsAreRuns(g, final, root, tr);
      }
    } else {
      var tr :| !EndsLikeAt(body, tr);
      BlockAgrees(false, true, body, Continued, tr);
      LooseWhile(body, tr);
      OneStatement(true, root, tr);
      OneStatement(false, root, tr);
    }
  }

  /** The graph lets a loop end where an iteration continues. */
  lemma LooseWhile(body: Block, tr: seq<Loc>)
    requires BlockExec(true, body, Continued, tr)
    ensures forall bid, i :: StmtExec(true, bid, i, Loop(body, true), Normal, tr)
  {
    assert Iterations(true, body, 0, []) && LastIteration(true, body, true, tr) && tr == [] + tr;
  }

  lemma OneStatement(loose: bool, b: Block, tr: seq<Loc>)
    requires |b.stmts| == 1
    ensures BlockExec(loose, b, Normal, tr) <==> StmtExec(loose, b.id, 0, b.stmts[0], Normal, tr)
  {
    var k, none: seq<Loc> := |b.stmts|, [];
    assert PrefixExec(loose, b, k - 1, none) && tr == none + tr;
    if BlockExec(loose, b, Normal, tr) {
      assert PrefixExec(loose, b, k, tr);
      var t1, t2 :| PrefixExec(loose, b, k - 1, t1) && StmtExec(loose, b.id, k - 1, b.stmts[k - 1], Normal, t2)
        && tr == t1 + t2;
      assert tr == t2;
    }
  }

  /******* Bodies without blocks of their own *******/

  predicate Flat(b: Block) {
    forall i | 0 <= i < |b.stmts| :: b.stmts[i].Plain? || b.stmts[i].Continue? || b.stmts[i].WhileControl?
  }

  predicate NoContinue(b: Block, k: nat)
    requires k <= |b.stmts|
  {
    forall i | 0 <= i < k :: !b.stmts[i].Continue?
  }

  predicate NoPlain(b: Block, from: nat, to: nat)
    requires to <= |b.stmts|
  {
    forall i | from <= i < to :: !b.stmts[i].Plain?
  }

  /** The `continue` that is reached, if there is one. */
  predicate FirstContinue(b: Block, k: nat) {
    k < |b.stmts| && b.stmts[k].Continue? && NoContinue(b, k)
  }

  /** Before it comes a while control with no ordinary statement between the two, or none before it. */
  predicate MayEndAt(b: Block, k: nat)
    requires k <= |b.stmts|
  {
    exists j: nat :: j < k && EndsAt(b, j, k)
  }

  predicate EndsAt(b: Block, j: nat, k: nat)
    requires j < k <= |b.stmts|
  {
    b.stmts[j].WhileControl? && (NoPlain(b, j, k) || NoPlain(b, 0, j))
  }

  predicate MayEnd(b: Block) {
    forall k: nat | k < |b.stmts| && FirstContinue(b, k) :: MayEndAt(b, k)
  }

  /** The ordinary statements among the first `k`. */
  function Plains(b: Block, k: nat): seq<Loc>
    requires k <= |b.stmts|
  {
    if k == 0 then [] else Plains(b, k - 1) + if b.stmts[k - 1].Plain? then [Loc(b.id, k - 1)] else []
  }

  lemma {:induction false} PlainsGrow(b: Block, j: nat, k: nat)
    requires j <= k <= |b.stmts|
    ensures |Plains(b, j)| <= |Plains(b, k)|
    ensures |Plains(b, j)| == |Plains(b, k)| <==> NoPlain(b, j, k)
    ensures NoPlain(b, j, k) ==> Plains(b, j) == Plains(b, k)
    decreases k
  {
    if j < k {
      PlainsGrow(b, j, k - 1);
    }
  }

  lemma {:induction false} FlatPrefix(b: Block, k: nat, tr: seq<Loc>)
    requires Flat(b) && k <= |b.stmts|
    ensures PrefixExec(false, b, k, tr) <==> NoContinue(b, k) && tr == Plains(b, k)
    decreases k
  {
    if k > 0 {
      forall t1, t2 | PrefixExec(false, b, k - 1, t1) && StmtExec(false, b.id, k - 1, b.stmts[k - 1], Normal, t2)
        ensures NoContinue(b, k) && t1 + t2 == Plains(b, k)
      {
        FlatPrefix(b, k - 1, t1);
      }
      if NoContinue(b, k) {
        var t2 := if b.stmts[k - 1].Plain? then [Loc(b.id, k - 1)] else [];
        FlatPrefix(b, k - 1, Plains(b, k - 1));
        assert StmtExec(false, b.id, k - 1, b.stmts[k - 1], Normal, t2);
      }
    }
  }

  /** Statement `j` is reached, and leaves the body. */
  predicate LeavesAt(b: Block, j: nat, o: Outcome) {
    && j < |b.stmts| && NoContinue(b, j)
    && ((o.Continued? && b.stmts[j].Continue?) || (o.Broke? && b.stmts[j].WhileControl?))
  }

  lemma {:induction false} FlatEarly(b: Block, k: nat, o: Outcome, tr: seq<Loc>)
    requires Flat(b) && k <= |b.stmts|
    ensures EarlyExec(false, b, k, o, tr) <==> exists j: nat :: j < k && LeavesAt(b, j, o) && tr == Plains(b, j)
    decreases k
  {
    if k > 0 {
      FlatEarly(b, k - 1, o, tr);
      var none: seq<Loc> := [];
      forall t1, t2 | PrefixExec(false, b, k - 1, t1) && StmtExec(false, b.id, k - 1, b.stmts[k - 1], o, t2)
        ensures !o.Normal? ==> LeavesAt(b, k - 1, o) && t1 + t2 == Plains(b, k - 1)
      {
        FlatPrefix(b, k - 1, t1);
      }
      if LeavesAt(b, k - 1, o) {
        FlatPrefix(b, k - 1, Plains(b, k - 1));
        assert StmtExec(false, b.id, k - 1, b.stmts[k - 1], o, none) && Plains(b, k - 1) + none == Plains(b, k - 1);
      }
    }
  }

  /** All iterations that go on have the trace up to the `continue`. */
  lemma FlatGoesOn(b: Block, k: nat, tr: seq<Loc>)
    requires Flat(b) && FirstContinue(b, k)
    ensures BlockExec(false, b, Continued, tr) <==> tr == Plains(b, k)
    ensures IterationGoesOn(false, b, tr) <==> tr == Plains(b, k)
  {
    FlatEarly(b, |b.stmts|, Continued, tr);
    FlatPrefix(b, |b.stmts|, tr);
    assert LeavesAt(b, k, Continued);
    assert forall j: nat | LeavesAt(b, j, Continued) :: j == k;
  }

  lemma {:induction false} FlatIterations(b: Block, k: nat, n: nat, tr: seq<Loc>)
    requires Flat(b) && FirstContinue(b, k) && Iterations(false, b, n, tr)
    ensures n == 0 ==> tr == []
    ensures n > 0 ==> |tr| >= |Plains(b, k)|
    decreases n
  {
    if n > 0 {
      var t1, t2 :| Iterations(false, b, n - 1, t1) && IterationGoesOn(false, b, t2) && tr == t1 + t2;
      FlatGoesOn(b, k, t2);
    }
  }

  /** A run of the loop with the trace of an iteration that continues. */
  lemma FlatRun(b: Block, k: nat)
    requires Flat(b) && FirstContinue(b, k)
    ensures WhileRun(b, Plains(b, k)) <==> MayEndAt(b, k)
  {
    var tr := Plains(b, k);
    if WhileRun(b, tr) {
      var n: nat, t1, t2 :| Iterations(false, b, n, t1) && LastIteration(false, b, true, t2) && tr == t1 + t2;
      FlatIterations(b, k, n, t1);
      FlatEarly(b, |b.stmts|, Broke, t2);
      assert BlockExec(false, b, Broke, t2);
      var j: nat :| j < |b.stmts| && LeavesAt(b, j, Broke) && t2 == Plains(b, j);
      PlainsGrow(b, 0, j);
      PlainsGrow(b, j, k);
      assert EndsAt(b, j, k);
    }
    if MayEndAt(b, k) {
      var j: nat :| j < k && EndsAt(b, j, k);
      FlatEnds(b, j, k);
    }
  }

  lemma FlatEnds(b: Block, j: nat, k: nat)
    requires Flat(b) && FirstContinue(b, k) && j < k && EndsAt(b, j, k)
    ensures WhileRun(b, Plains(b, k))
  {
    var tr, none: seq<Loc> := Plains(b, k), [];
    FlatEarly(b, |b.stmts|, Broke, Plains(b, j));
    assert LeavesAt(b, j, Broke) && LastIteration(false, b, true, Plains(b, j));
    assert Iterations(false, b, 0, none);
    if NoPlain(b, j, k) {
      PlainsGrow(b, j, k);
      assert tr == none + Plains(b, j);
    } else {
      PlainsGrow(b, 0, j);
      FlatGoesOn(b, k, tr);
      assert none + tr == tr && tr + Plains(b, j) == tr;
      assert Iterations(false, b, 1, tr);
    }
  }

  /** For such bodies, the condition can be read off the statements. */
  lemma FlatEndsLike(b: Block)
    requires Flat(b)
    ensures EndsLike(b) <==> MayEnd(b)
  {
    forall k: nat | FirstContinue(b, k)
      ensures EndsLike(b) ==> MayEndAt(b, k)
      ensures forall tr :: MayEndAt(b, k) ==> EndsLikeAt(b, tr)
    {
      FlatRun(b, k);
      forall tr
        ensures BlockExec(false, b, Continued, tr) <==> tr == Plains(b, k)
      {
        FlatGoesOn(b, k, tr);
      }
      assert EndsLike(b) ==> EndsLikeAt(b, Plains(b, k));
    }
    if MayEnd(b) {
      forall tr
        ensures EndsLikeAt(b, tr)
      {
        FlatEarly(b, |b.stmts|, Continued, tr);
        if BlockExec(false, b, Continued, tr) {
          var k: nat :| k < |b.stmts| && LeavesAt(b, k, Continued);
          assert FirstContinue(b, k) && MayEndAt(b, k);
        }
      }
    }
  }

  /** So for a program that is one `while` with such a body, the graph is exact if and only if before the
      `continue` that is reached comes a while control with no ordinary statement between the two, or with
      none before it. */
  lemma FlatWhileExactly(g: Graph, final: nat, id: nat, body: Block)
    requires CfgBuilder.Represents(g, final, Block(id, [Loop(body, true)])) && Flat(body)
    ensures MayEnd(body) <==>
            forall tr :: Path(g, 0, final, tr) <==> BlockExec(false, Block(id, [Loop(body, true)]), Normal, tr)
  {
    FlatEndsLike(body);
    WhileExactly(g, final, id, body);
  }

  const SPIN := Block(1, [Continue])
  const SPIN_LOOP := Block(0, [Loop(SPIN, true)])

  lemma SpinNeverBreaks(tr: seq<Loc>)
    ensures !BlockExec(false, SPIN, Broke, tr)
  {
    assert !EarlyExec(false, SPIN, 0, Broke, tr);
  }

  lemma SpinNeverEnds(tr: seq<Loc>)
    ensures !BlockExec(false, SPIN_LOOP, Normal, tr)
  {
    forall u
      ensures !LastIteration(false, SPIN, true, u)
    {
      SpinNeverBreaks(u);
    }
    assert forall t :: !StmtExec(false, 0, 0, SPIN_LOOP.stmts[0], Normal, t);
    assert !PrefixExec(false, SPIN_LOOP, 1, tr);
  }

  lemma SpinEndsLoosely()
    ensures BlockExec(true, SPIN_LOOP, Normal, [])
  {
    var none: seq<Loc> := [];
    assert none == none + none;
    assert PrefixExec(true, SPIN, 0, none) && StmtExec(true, 1, 0, SPIN.stmts[0], Continued, none);
    assert EarlyExec(true, SPIN, 1, Continued, none);
    assert Iterations(true, SPIN, 0, none) && LastIteration(true, SPIN, true, none);
    assert PrefixExec(true, SPIN_LOOP, 0, none) && StmtExec(true, 0, 0, SPIN_LOOP.stmts[0], Normal, none);
  }

  /** `while (true) { continue; }` never terminates, but its graph has a path to the final node. */
  lemma ContinueLeavesWhile(g: Graph, final: nat, tr: seq<Loc>)
    requires CfgBuilder.Represents(g, final, SPIN_LOOP)
    ensures Path(g, 0, final, []) && !BlockExec(false, SPIN_LOOP, Normal, tr)
  {
    SpinEndsLoosely();
    SpinNeverEnds(tr);
  }
}

/**
 The control-flow graph builder: a visitor that turns structured IR into a graph of statement ranges.
 */
module CfgBuilder {
  import opened Options
  import opened Cfg
  import opened CfgTracking

  /******* Which locations the nodes cover *******/

  ghost function Covered(nodes: seq<Node>): multiset<Loc> {
    if nodes == [] then multiset{} else Covered(nodes[..|nodes| - 1]) + multiset(Spelled(nodes[|nodes| - 1]))
  }

  /** The ordinary statements of a block and of the blocks inside it. */
  ghost function Ordinary(b: Block): multiset<Loc>
    decreases b, 1, 0
  {
    OrdinaryUpTo(b, |b.stmts|)
  }

  ghost function OrdinaryUpTo(b: Block, k: nat): multiset<Loc>
    requires k <= |b.stmts|
    decreases b, 0, k
  {
    if k == 0 then multiset{} else OrdinaryUpTo(b, k - 1) + OrdinaryIn(b.id, k - 1, b.stmts[k - 1])
  }

  ghost function OrdinaryIn(bid: nat, i: int, st: Stmt): multiset<Loc>
    decreases st, 0, 0
  {
    match st
    case Plain => multiset{Loc(bid, i)}
    case Continue => multiset{}
    case WhileControl => multiset{}
    case If(t, e) => OrdinaryOf(t) + OrdinaryOf(e)
    case Loop(body, _) => Ordinary(body)
  }

  ghost function OrdinaryOf(b: Option<Block>): multiset<Loc>
    decreases b, 2, 0
  {
    match b
    case None => multiset{}
    case Some(block) => Ordinary(block)
  }

  lemma CoveredSnoc(nodes: seq<Node>, n: Node)
    ensures Covered(nodes + [n]) == Covered(nodes) + multiset(Spelled(n))
  {
    assert (nodes + [n])[..|nodes|] == nodes;
  }

  /******* Invariant of the walk over one block *******/

  /** What walking a block, entered in state `s0`, may have done to the graph. */
  ghost predicate BlockFrame(s0: Cursor, g: Graph) {
    var e := |s0.g.nodes|;
    && GraphOk(g) && OldEntries(s0.g, g) && e < |g.nodes|
    && (forall m, k :: (m, k) in g.edges && m < e <= k ==> k == e && m in s0.prev)
    && (forall p | p in s0.prev :: (p, e) in g.edges)
  }

  /** The state `s` before statement `i` of a block entered in state `s0`; `cn` and `bn` are the
      continue and break nodes added since. */
  ghost predicate Shape(s0: Cursor, s: Cursor, i: nat, cn: seq<nat>, bn: seq<nat>) {
    var e := |s0.g.nodes|;
    && CursorOk(s) && 0 <= s.begin <= i
    && s.conts == s0.conts + cn && s.brks == s0.brks + bn && AllFrom(cn, e) && AllFrom(bn, e)
    && if |s.g.nodes| == e then s.g == s0.g && s.prev == s0.prev else BlockFrame(s0, s.g) && AllFrom(s.prev, e)
  }

  /** Every ordinary statement before `i` is in exactly one node or in the open range. */
  ghost predicate Accounted(s0: Cursor, s: Cursor, b: Block, i: nat)
    requires i <= |b.stmts|
  {
    Covered(s.g.nodes) + multiset(Range(b.id, s.begin, i)) == Covered(s0.g.nodes) + OrdinaryUpTo(b, i)
  }

  ghost predicate InBlock(s0: Cursor, s: Cursor, b: Block, i: nat, cn: seq<nat>, bn: seq<nat>) {
    i <= |b.stmts| && Shape(s0, s, i, cn, bn) && Tracks(s, b, |s0.g.nodes|, cn, bn, i) && Accounted(s0, s, b, i)
  }

  lemma EntersBlock(s0: Cursor, b: Block)
    requires CursorOk(s0)
    ensures InBlock(s0, s0.(begin := 0), b, 0, [], [])
  {
    var s := s0.(begin := 0);
    forall tr
      ensures TracksAt(s, b, |s0.g.nodes|, [], [], 0, tr)
    {
    }
  }

  /** Edges from inside the block keep its frame. */
  lemma FrameGrows(s0: Cursor, g: Graph, h: Graph)
    requires BlockFrame(s0, g) && OldEntries(g, h) && GraphOk(h)
    requires forall m, k :: (m, k) in h.edges && m < |g.nodes| <= k ==> |s0.g.nodes| <= m
    ensures BlockFrame(s0, h)
  {
  }

  /** The first node of a block takes the edges that were waiting outside. */
  lemma FirstNodeFrame(s0: Cursor, bid: nat, i: nat, next: int)
    requires CursorOk(s0)
    ensures BlockFrame(s0, Closed(s0, bid, i, next).g)
  {
    ClosedOk(s0, bid, i, next);
    var g := Closed(s0, bid, i, next).g;
    assert g.edges == s0.g.edges + EdgesTo(s0.prev, |s0.g.nodes|);
  }

  lemma LaterNodeFrame(s0: Cursor, s: Cursor, bid: nat, i: nat, next: int)
    requires CursorOk(s) && BlockFrame(s0, s.g) && AllFrom(s.prev, |s0.g.nodes|)
    ensures BlockFrame(s0, Closed(s, bid, i, next).g)
  {
    ClosedOk(s, bid, i, next);
    FrameGrows(s0, s.g, Closed(s, bid, i, next).g);
  }

  /** Closing the open range of a block: what the graph looks like whatever is attached next. */
  lemma ClosesInBlock(s0: Cursor, s: Cursor, b: Block, i: nat, cn: seq<nat>, bn: seq<nat>, next: int)
    requires CursorOk(s0) && InBlock(s0, s, b, i, cn, bn)
    ensures var s1 := Closed(s, b.id, i, next);
            && CursorOk(s1) && BlockFrame(s0, s1.g)
            && Covered(s1.g.nodes) == Covered(s0.g.nodes) + OrdinaryUpTo(b, i)
  {
    ClosedOk(s, b.id, i, next);
    CoveredSnoc(s.g.nodes, Node(b.id, s.begin, i));
    if |s.g.nodes| == |s0.g.nodes| {
      FirstNodeFrame(s0.(begin := s.begin), b.id, i, next);
    } else {
      LaterNodeFrame(s0, s, b.id, i, next);
    }
  }

  lemma AddedBelow(s0: seq<nat>, s: seq<nat>, cn: seq<nat>, n: nat)
    requires s == s0 + cn && AllBelow(s, n)
    ensures AllBelow(cn, n)
  {
    assert forall y | y in cn :: y in s;
  }

  lemma AddedTwice(s0: seq<nat>, s: seq<nat>, s': seq<nat>, cn: seq<nat>, cx: seq<nat>, e: nat, n: nat)
    requires s == s0 + cn && s' == s + cx && AllFrom(cn, e) && AllFrom(cx, n) && e <= n
    ensures s' == s0 + (cn + cx) && AllFrom(cn + cx, e)
  {
  }

  lemma LeavesStmtTracks(s0: Cursor, s: Cursor, s': Cursor, b: Block, i: nat, cn: seq<nat>, bn: seq<nat>, cx: seq<nat>,
                         bx: seq<nat>)
    requires i < |b.stmts| && Shape(s0, s, i, cn, bn) && Tracks(s, b, |s0.g.nodes|, cn, bn, i)
    requires OldEntries(Closed(s, b.id, i, 0).g, s'.g) && s'.begin == i + 1
    requires forall tr :: StmtBuiltAt(s', b, |s0.g.nodes|, |s.g.nodes|, cx, bx, i, tr)
    ensures Tracks(s', b, |s0.g.nodes|, cn + cx, bn + bx, i + 1)
  {
    AddedBelow(s0.conts, s.conts, cn, |s.g.nodes|);
    AddedBelow(s0.brks, s.brks, bn, |s.g.nodes|);
    var e, cn', bn', i' := |s0.g.nodes|, cn + cx, bn + bx, i + 1;
    forall tr
      ensures TracksAt(s', b, e, cn', bn', i', tr)
    {
      NextTracks(s, s', b, e, cn, bn, cx, bx, i, tr);
    }
  }

  lemma LeavesStmtShape(s0: Cursor, s: Cursor, s': Cursor, i: nat, cn: seq<nat>, bn: seq<nat>, cx: seq<nat>,
                        bx: seq<nat>)
    requires Shape(s0, s, i, cn, bn)
    requires BlockFrame(s0, s'.g) && CursorOk(s') && s'.begin == i + 1
    requires s'.conts == s.conts + cx && s'.brks == s.brks + bx
    requires AllFrom(cx, |s.g.nodes|) && AllFrom(bx, |s.g.nodes|) && AllFrom(s'.prev, |s.g.nodes|)
    ensures Shape(s0, s', i + 1, cn + cx, bn + bx)
  {
    AddedTwice(s0.conts, s.conts, s'.conts, cn, cx, |s0.g.nodes|, |s.g.nodes|);
    AddedTwice(s0.brks, s.brks, s'.brks, bn, bx, |s0.g.nodes|, |s.g.nodes|);
  }

  lemma LeavesStmtAccounted(s0: Cursor, s': Cursor, b: Block, i: nat)
    requires i < |b.stmts| && s'.begin == i + 1
    requires Covered(s'.g.nodes) == Covered(s0.g.nodes) + OrdinaryUpTo(b, i) + OrdinaryIn(b.id, i, b.stmts[i])
    ensures Accounted(s0, s', b, i + 1)
  {
    assert Range(b.id, i + 1, i + 1) == [];
  }

  /** The state after a statement that closed the open range. */
  lemma LeavesStmt(s0: Cursor, s: Cursor, s': Cursor, b: Block, i: nat, cn: seq<nat>, bn: seq<nat>, cx: seq<nat>,
                   bx: seq<nat>)
    requires InBlock(s0, s, b, i, cn, bn) && i < |b.stmts|
    requires OldEntries(Closed(s, b.id, i, 0).g, s'.g) && BlockFrame(s0, s'.g) && CursorOk(s') && s'.begin == i + 1
    requires s'.conts == s.conts + cx && s'.brks == s.brks + bx
    requires AllFrom(cx, |s.g.nodes|) && AllFrom(bx, |s.g.nodes|) && AllFrom(s'.prev, |s.g.nodes|)
    requires forall tr :: StmtBuiltAt(s', b, |s0.g.nodes|, |s.g.nodes|, cx, bx, i, tr)
    requires Covered(s'.g.nodes) == Covered(s0.g.nodes) + OrdinaryUpTo(b, i) + OrdinaryIn(b.id, i, b.stmts[i])
    ensures InBlock(s0, s', b, i + 1, cn + cx, bn + bx)
  {
    LeavesStmtTracks(s0, s, s', b, i, cn, bn, cx, bx);
    LeavesStmtShape(s0, s, s', i, cn, bn, cx, bx);
    LeavesStmtAccounted(s0, s', b, i);
  }

  lemma PlainAccounted(s0: Cursor, s: Cursor, b: Block, i: nat)
    requires i < |b.stmts| && b.stmts[i].Plain? && s.begin <= i && Accounted(s0, s, b, i)
    ensures Accounted(s0, s, b, i + 1)
  {
    RangeSnoc(b.id, s.begin, i);
    var open := Range(b.id, s.begin, i);
    var loc := multiset{Loc(b.id, i)};
    assert multiset(open + [Loc(b.id, i)]) == multiset(open) + loc;
    assert OrdinaryUpTo(b, i + 1) == OrdinaryUpTo(b, i) + loc;
    assert Covered(s.g.nodes) + (multiset(open) + loc) == (Covered(s.g.nodes) + multiset(open)) + loc;
  }

  /** An ordinary statement only makes the open range longer. */
  lemma LeavesPlain(s0: Cursor, s: Cursor, b: Block, i: nat, cn: seq<nat>, bn: seq<nat>)
    requires InBlock(s0, s, b, i, cn, bn) && i < |b.stmts| && b.stmts[i].Plain?
    ensures InBlock(s0, s, b, i + 1, cn, bn)
  {
    var e, i' := |s0.g.nodes|, i + 1;
    forall tr
      ensures TracksAt(s, b, e, cn, bn, i', tr)
    {
      PlainTracks(s, b, e, cn, bn, i, tr);
    }
    PlainAccounted(s0, s, b, i);
  }

  /******* Visiting nested blocks *******/

  /** The state after a whole block, entered in state `s0`. */
  ghost predicate BlockVisited(s0: Cursor, s: Cursor, b: Block, cx: seq<nat>, bx: seq<nat>) {
    var e := |s0.g.nodes|;
    && CursorOk(s) && s.begin == -1 && s.prev == [] && BlockFrame(s0, s.g)
    && s.conts == s0.conts + cx && s.brks == s0.brks + bx && AllFrom(cx, e) && AllFrom(bx, e)
    && Built(s.g, b, e, cx, bx)
    && Covered(s.g.nodes) == Covered(s0.g.nodes) + Ordinary(b)
  }

  lemma LeavesBlockBuilt(s0: Cursor, s: Cursor, b: Block, cn: seq<nat>, bn: seq<nat>)
    requires InBlock(s0, s, b, |b.stmts|, cn, bn)
    ensures Built(Closed(s, b.id, |b.stmts|, -1).g, b, |s0.g.nodes|, cn, bn)
  {
    var e, g := |s0.g.nodes|, Closed(s, b.id, |b.stmts|, -1).g;
    AddedBelow(s0.conts, s.conts, cn, |s.g.nodes|);
    AddedBelow(s0.brks, s.brks, bn, |s.g.nodes|);
    ClosedOk(s, b.id, |b.stmts|, -1);
    forall tr
      ensures BuiltAt(g, b, e, cn, bn, tr)
    {
      assert TracksAt(s, b, e, cn, bn, |b.stmts|, tr);
      ClosedPaths(s, b.id, e, |b.stmts|, -1, tr);
      HitsRestricts(s.g, g, e, cn, tr);
      HitsRestricts(s.g, g, e, bn, tr);
    }
  }

  /** Closing the last range of a block finishes it. */
  lemma LeavesBlock(s0: Cursor, s: Cursor, b: Block, cn: seq<nat>, bn: seq<nat>)
    requires CursorOk(s0) && InBlock(s0, s, b, |b.stmts|, cn, bn)
    ensures BlockVisited(s0, Closed(s, b.id, |b.stmts|, -1), b, cn, bn)
  {
    LeavesBlockBuilt(s0, s, b, cn, bn);
    ClosesInBlock(s0, s, b, |b.stmts|, cn, bn, -1);
  }

  /** `h` extends `g`, and node `n` is the only old node with edges to new ones. */
  ghost predicate Hung(g: Graph, h: Graph, n: nat) {
    && OldEntries(g, h) && GraphOk(h)
    && forall m, k :: (m, k) in h.edges && m < |g.nodes| <= k ==> m == n
  }

  lemma HungTwice(g: Graph, h: Graph, k: Graph, n: nat)
    requires Hung(g, h, n) && Hung(h, k, n)
    ensures Hung(g, k, n)
  {
  }

  ghost predicate BranchBuiltAll(g: Graph, e: nat, n: nat, b: Option<Block>, end: nat, cx: seq<nat>, bx: seq<nat>) {
    forall tr :: BranchBuiltAt(g, e, n, b, end, cx, bx, tr)
  }

  /** What visiting one branch of an `if` below node `n` achieves. */
  ghost predicate BranchVisited(s: Cursor, s': Cursor, e: nat, n: nat, b: Option<Block>, end: nat, cx: seq<nat>,
                                bx: seq<nat>) {
    && CursorOk(s') && s'.begin == -1 && s'.prev == []
    && Hung(s.g, s'.g, n) && end < |s'.g.nodes| && (if b.None? then end == n else |s.g.nodes| <= end)
    && s'.conts == s.conts + cx && s'.brks == s.brks + bx && AllFrom(cx, |s.g.nodes|) && AllFrom(bx, |s.g.nodes|)
    && BranchBuiltAll(s'.g, e, n, b, end, cx, bx)
    && Covered(s'.g.nodes) == Covered(s.g.nodes) + OrdinaryOf(b)
  }

  lemma AttachesBranch(s: Cursor, s2: Cursor, e: nat, n: nat, b: Block, cx: seq<nat>, bx: seq<nat>)
    requires CursorOk(s) && s.prev == [] && e <= n < |s.g.nodes| && BlockVisited(s, s2, b, cx, bx)
    ensures BranchVisited(s, s2.(g := Graph(s2.g.nodes, s2.g.edges + {(n, |s.g.nodes|)})), e, n, Some(b),
                          |s2.g.nodes| - 1, cx, bx)
  {
    var h := Graph(s2.g.nodes, s2.g.edges + {(n, |s.g.nodes|)});
    var end := |s2.g.nodes| - 1;
    assert Attached(s.g, s2.g, h, n, |s.g.nodes|);
    AttachedGate(s.g, s2.g, h, n, |s.g.nodes|);
    forall tr
      ensures BranchBuiltAt(h, e, n, Some(b), end, cx, bx, tr)
    {
      BranchBuilt(s.g, s2.g, h, n, |s.g.nodes|, e, b, cx, bx, tr);
    }
  }

  lemma SkipsBranch(s: Cursor, e: nat, n: nat)
    requires CursorOk(s) && s.begin == -1 && s.prev == [] && n < |s.g.nodes|
    ensures BranchVisited(s, s, e, n, None, n, [], [])
  {
    forall tr
      ensures BranchBuiltAt(s.g, e, n, None, n, [], [], tr)
    {
      AbsentBranch(s.g, e, n, tr);
    }
  }

  lemma BranchesBuilt(s1: Cursor, s3: Cursor, s5: Cursor, s': Cursor, b: Block, i: nat, e: nat, n: nat, end1: nat,
                      end2: nat, cx1: seq<nat>, bx1: seq<nat>, cx2: seq<nat>, bx2: seq<nat>)
    requires i < |b.stmts| && b.stmts[i].If? && n < |s1.g.nodes|
    requires BranchVisited(s1, s3, e, n, b.stmts[i].trueBlock, end1, cx1, bx1)
    requires BranchVisited(s3, s5, e, n, b.stmts[i].falseBlock, end2, cx2, bx2)
    requires s'.g == s5.g && forall y :: y in s'.prev <==> y == end1 || y == end2
    ensures forall tr :: StmtBuiltAt(s', b, e, n, cx1 + cx2, bx1 + bx2, i, tr)
  {
    AddedBelow(s1.conts, s3.conts, cx1, |s3.g.nodes|);
    AddedBelow(s1.brks, s3.brks, bx1, |s3.g.nodes|);
    var cx, bx := cx1 + cx2, bx1 + bx2;
    forall tr
      ensures StmtBuiltAt(s', b, e, n, cx, bx, i, tr)
    {
      assert BranchBuiltAt(s3.g, e, n, b.stmts[i].trueBlock, end1, cx1, bx1, tr);
      assert BranchBuiltAt(s5.g, e, n, b.stmts[i].falseBlock, end2, cx2, bx2, tr);
      BranchStays(s3.g, s5.g, e, n, b.stmts[i].trueBlock, end1, cx1, bx1, tr);
      IfTracks(s', b, e, n, i, end1, end2, cx1, bx1, cx2, bx2, tr);
    }
  }

  /** From the blocks hung below the new node to the state after the container statement. */
  lemma LeavesContainer(s0: Cursor, s: Cursor, s': Cursor, b: Block, i: nat, cn: seq<nat>, bn: seq<nat>, cx: seq<nat>,
                        bx: seq<nat>)
    requires CursorOk(s0) && InBlock(s0, s, b, i, cn, bn) && i < |b.stmts|
    requires Hung(Closed(s, b.id, i, -1).g, s'.g, |s.g.nodes|) && CursorOk(s') && s'.begin == i + 1
    requires s'.conts == s.conts + cx && s'.brks == s.brks + bx
    requires AllFrom(cx, |s.g.nodes|) && AllFrom(bx, |s.g.nodes|) && AllFrom(s'.prev, |s.g.nodes|)
    requires forall tr :: StmtBuiltAt(s', b, |s0.g.nodes|, |s.g.nodes|, cx, bx, i, tr)
    requires Covered(s'.g.nodes) == Covered(Closed(s, b.id, i, -1).g.nodes) + OrdinaryIn(b.id, i, b.stmts[i])
    ensures InBlock(s0, s', b, i + 1, cn + cx, bn + bx)
  {
    ClosesInBlock(s0, s, b, i, cn, bn, -1);
    FrameGrows(s0, Closed(s, b.id, i, -1).g, s'.g);
    LeavesStmt(s0, s, s', b, i, cn, bn, cx, bx);
  }

  lemma BranchesShape(s1: Cursor, s3: Cursor, s5: Cursor, e: nat, n: nat, b1: Option<Block>, b2: Option<Block>,
                      end1: nat, end2: nat, cx1: seq<nat>, bx1: seq<nat>, cx2: seq<nat>, bx2: seq<nat>)
    requires n < |s1.g.nodes|
    requires BranchVisited(s1, s3, e, n, b1, end1, cx1, bx1) && BranchVisited(s3, s5, e, n, b2, end2, cx2, bx2)
    ensures Hung(s1.g, s5.g, n) && end1 < |s5.g.nodes| && end2 < |s5.g.nodes| && n <= end1 && n <= end2
    ensures s5.conts == s1.conts + (cx1 + cx2) && s5.brks == s1.brks + (bx1 + bx2)
    ensures AllFrom(cx1 + cx2, n) && AllFrom(bx1 + bx2, n)
    ensures Covered(s5.g.nodes) == Covered(s1.g.nodes) + (OrdinaryOf(b1) + OrdinaryOf(b2))
  {
    HungTwice(s1.g, s3.g, s5.g, n);
    AddedTwice(s1.conts, s3.conts, s5.conts, cx1, cx2, n, n);
    AddedTwice(s1.brks, s3.brks, s5.brks, bx1, bx2, n, n);
  }

  /** What visiting both branches below node `n`, created in state `s1`, achieves. */
  ghost predicate IfVisited(s1: Cursor, s': Cursor, b: Block, i: nat, e: nat, n: nat, cx: seq<nat>, bx: seq<nat>)
    requires i < |b.stmts|
  {
    && Hung(s1.g, s'.g, n) && CursorOk(s') && s'.begin == i + 1
    && s'.conts == s1.conts + cx && s'.brks == s1.brks + bx && AllFrom(cx, n) && AllFrom(bx, n) && AllFrom(s'.prev, n)
    && (forall tr :: StmtBuiltAt(s', b, e, n, cx, bx, i, tr))
    && Covered(s'.g.nodes) == Covered(s1.g.nodes) + OrdinaryIn(b.id, i, b.stmts[i])
  }

  lemma BothBranches(s1: Cursor, s3: Cursor, s5: Cursor, s': Cursor, b: Block, i: nat, e: nat, n: nat,
                     end1: nat, end2: nat, cx1: seq<nat>, bx1: seq<nat>, cx2: seq<nat>, bx2: seq<nat>)
    requires i < |b.stmts| && b.stmts[i].If? && n < |s1.g.nodes|
    requires BranchVisited(s1, s3, e, n, b.stmts[i].trueBlock, end1, cx1, bx1)
    requires BranchVisited(s3, s5, e, n, b.stmts[i].falseBlock, end2, cx2, bx2)
    requires s' == s5.(prev := s'.prev, begin := i + 1)
    requires forall y :: y in s'.prev <==> y == end1 || y == end2
    ensures IfVisited(s1, s', b, i, e, n, cx1 + cx2, bx1 + bx2)
  {
    BranchesShape(s1, s3, s5, e, n, b.stmts[i].trueBlock, b.stmts[i].falseBlock, end1, end2, cx1, bx1, cx2, bx2);
    BranchesBuilt(s1, s3, s5, s', b, i, e, n, end1, end2, cx1, bx1, cx2, bx2);
  }

  /** From both branches to the state after the `if`. */
  lemma LeavesIf(s0: Cursor, s: Cursor, s': Cursor, b: Block, i: nat, cn: seq<nat>, bn: seq<nat>, cx: seq<nat>,
                 bx: seq<nat>)
    requires CursorOk(s0) && InBlock(s0, s, b, i, cn, bn) && i < |b.stmts|
    requires IfVisited(Closed(s, b.id, i, -1), s', b, i, |s0.g.nodes|, |s.g.nodes|, cx, bx)
    ensures InBlock(s0, s', b, i + 1, cn + cx, bn + bx)
  {
    LeavesContainer(s0, s, s', b, i, cn, bn, cx, bx);
  }

  lemma LoopBuilt(g1: Graph, g: Graph, s': Cursor, e: nat, n: nat, cut: nat, b: Block, i: nat, cx: seq<nat>,
                  bx: seq<nat>)
    requires i < |b.stmts| && b.stmts[i].Loop? && e < cut
    requires LoopGraph(g1, g, s'.g, n, cut, cx) && Built(g, b.stmts[i].body, cut, cx, bx)
    requires AllFrom(cx, cut) && AllFrom(bx, cut)
    requires var w := b.stmts[i].whileTrue; s'.prev == (if w then [] else [n]) + LoopExits(|g.nodes| - 1, w, cx, bx)
    ensures forall tr :: StmtBuiltAt(s', b, e, n, [], [], i, tr)
  {
    forall tr
      ensures StmtBuiltAt(s', b, e, n, [], [], i, tr)
    {
      LoopTracks(g1, g, s', e, n, cut, b, i, cx, bx, tr);
    }
  }

  /** The edges of a loop whose body was built between nodes `n` and `s2`, and the nodes that may leave it. */
  ghost predicate LoopClosed(s2: Cursor, g: Graph, prev: seq<nat>, n: nat, whileTrue: bool, cx: seq<nat>,
                             bx: seq<nat>)
  {
    var end := |s2.g.nodes| - 1;
    && end >= 0 && g == Graph(s2.g.nodes, s2.g.edges + EdgesTo([end] + cx, n + 1) + {(n, n + 1)})
    && prev == (if whileTrue then [] else [n]) + LoopExits(end, whileTrue, cx, bx)
  }

  /** From the body to the state after a loop; `s2` is the state after the body. */
  lemma LeavesLoopStmt(s0: Cursor, s: Cursor, s2: Cursor, s': Cursor, b: Block, i: nat, cn: seq<nat>, bn: seq<nat>,
                       cx: seq<nat>, bx: seq<nat>)
    requires CursorOk(s0) && InBlock(s0, s, b, i, cn, bn) && i < |b.stmts| && b.stmts[i].Loop?
    requires BlockVisited(Closed(s, b.id, i, -1).(conts := [], brks := []), s2, b.stmts[i].body, cx, bx)
    requires LoopClosed(s2, s'.g, s'.prev, |s.g.nodes|, b.stmts[i].whileTrue, cx, bx)
    requires s'.begin == i + 1 && s'.conts == s.conts && s'.brks == s.brks
    ensures InBlock(s0, s', b, i + 1, cn + [], bn + [])
  {
    var s1 := Closed(s, b.id, i, -1).(conts := [], brks := []);
    LoopLeft(s1, s2, s', |s0.g.nodes|, |s.g.nodes|, b, i, cx, bx);
    assert CursorOk(s') by {
      assert AllBelow(s.conts, |s.g.nodes|) && AllBelow(s.brks, |s.g.nodes|);
    }
    LeavesContainer(s0, s, s', b, i, cn, bn, [], []);
  }

  lemma LoopLeft(s1: Cursor, s2: Cursor, s': Cursor, e: nat, n: nat, b: Block, i: nat, cx: seq<nat>, bx: seq<nat>)
    requires i < |b.stmts| && b.stmts[i].Loop? && e < n + 1 && |s1.g.nodes| == n + 1
    requires s1.prev == [] && s1.conts == [] && s1.brks == [] && BlockVisited(s1, s2, b.stmts[i].body, cx, bx)
    requires LoopClosed(s2, s'.g, s'.prev, n, b.stmts[i].whileTrue, cx, bx)
    ensures GraphOk(s'.g) && Hung(s1.g, s'.g, n) && AllBelow(s'.prev, |s'.g.nodes|) && AllFrom(s'.prev, n)
    ensures forall tr :: StmtBuiltAt(s', b, e, n, [], [], i, tr)
    ensures Covered(s'.g.nodes) == Covered(s1.g.nodes) + OrdinaryIn(b.id, i, b.stmts[i])
  {
    LoopShape(s1, s2, s', n, b.stmts[i].body, b.stmts[i].whileTrue, cx, bx);
    LoopBuilt(s1.g, s2.g, s', e, n, n + 1, b, i, cx, bx);
  }

  lemma LoopShape(s1: Cursor, s2: Cursor, s': Cursor, n: nat, body: Block, whileTrue: bool, cx: seq<nat>, bx: seq<nat>)
    requires s1.prev == [] && s1.conts == [] && s1.brks == [] && |s1.g.nodes| == n + 1
             && BlockVisited(s1, s2, body, cx, bx)
    requires LoopClosed(s2, s'.g, s'.prev, n, whileTrue, cx, bx)
    ensures LoopGraph(s1.g, s2.g, s'.g, n, n + 1, cx) && Hung(s1.g, s'.g, n)
    ensures AllBelow(s'.prev, |s'.g.nodes|) && AllFrom(s'.prev, n)
  {
    var ks := [|s2.g.nodes| - 1] + cx;
    var mid := Graph(s2.g.nodes, s2.g.edges + EdgesTo(ks, n + 1));
    AddedBelow([], s2.conts, cx, |s2.g.nodes|);
    AddedBelow([], s2.brks, bx, |s2.g.nodes|);
    assert AllBelow(ks, |s2.g.nodes|);
    assert AllFrom(ks, n + 1);
    assert Attached(s1.g, mid, s'.g, n, n + 1);
    AttachedGate(s1.g, mid, s'.g, n, n + 1);
  }

  /******* The builder *******/

  class Builder {
    var nodes: seq<Node>
    var edges: set<(nat, nat)>
    var finalNode: int
    var currentBlock: Option<Block>
    var currentStmtId: int
    var beginLocation: int
    var prevNodes: seq<nat>
    var continuesInCurrentLoop: seq<nat>
    var breaksInCurrentLoop: seq<nat>

    ghost function View(): Cursor
      reads this
    {
      Cursor(Graph(nodes, edges), prevNodes, beginLocation, continuesInCurrentLoop, breaksInCurrentLoop)
    }

    /** The walk over block `b`, entered in state `s0`, is about to visit statement `i`. */
    ghost predicate At(s0: Cursor, b: Block, i: nat, cn: seq<nat>, bn: seq<nat>)
      reads this
    {
      currentBlock == Some(b) && currentStmtId == i && InBlock(s0, View(), b, i, cn, bn)
    }

    constructor ()
      ensures View() == Cursor(Graph([Node(0, -1, -1)], {}), [0], -1, [], [])
      ensures currentBlock == None && currentStmtId == -1
    {
      nodes, edges := [Node(0, -1, -1)], {};
      finalNode := 0;
      currentBlock, currentStmtId, beginLocation := None, -1, -1;
      prevNodes, continuesInCurrentLoop, breaksInCurrentLoop := [0], [], [];
    }

    /** `new_node`: closes the open range and connects the waiting nodes to it. */
    method NewNode(nextBeginLocation: int) returns (node: nat)
      requires currentBlock.Some? && currentStmtId >= 0
      modifies `nodes, `edges, `prevNodes, `beginLocation
      ensures node == old(|nodes|)
      ensures View() == Closed(old(View()), currentBlock.value.id, currentStmtId, nextBeginLocation)
    {
      node := |nodes|;
      nodes := nodes + [Node(currentBlock.value.id, beginLocation, currentStmtId)];
      for j := 0 to |prevNodes|
        modifies `edges
        invariant edges == old(edges) + EdgesTo(prevNodes[..j], node)
      {
        assert prevNodes[..j + 1] == prevNodes[..j] + [prevNodes[j]];
        edges := edges + {(prevNodes[j], node)};
      }
      assert prevNodes[..|prevNodes|] == prevNodes;
      prevNodes := [];
      beginLocation := nextBeginLocation;
    }

    /** `visit(ContinueStmt)`. */
    method VisitContinue(ghost s0: Cursor, ghost b: Block, ghost i: nat, ghost cn: seq<nat>, ghost bn: seq<nat>)
      requires CursorOk(s0) && At(s0, b, i, cn, bn) && i < |b.stmts| && b.stmts[i].Continue?
      modifies this
      ensures InBlock(s0, View(), b, i + 1, cn + [old(|nodes|)], bn + [])
      ensures currentBlock == old(currentBlock)
    {
      ghost var s := View();
      ClosesInBlock(s0, s, b, i, cn, bn, i + 1);
      var node := NewNode(currentStmtId + 1);
      continuesInCurrentLoop := continuesInCurrentLoop + [node];
      ghost var s' := View();
      forall tr
        ensures StmtBuiltAt(s', b, |s0.g.nodes|, |s.g.nodes|, [node], [], i, tr)
      {
        ContinueTracks(s, s', b, |s0.g.nodes|, node, i, tr);
      }
      LeavesStmt(s0, s, s', b, i, cn, bn, [node], []);
    }

    /** `visit(WhileControlStmt)`. */
    method VisitWhileControl(ghost s0: Cursor, ghost b: Block, ghost i: nat, ghost cn: seq<nat>, ghost bn: seq<nat>)
      requires CursorOk(s0) && At(s0, b, i, cn, bn) && i < |b.stmts| && b.stmts[i].WhileControl?
      modifies this
      ensures InBlock(s0, View(), b, i + 1, cn + [], bn + [old(|nodes|)])
      ensures currentBlock == old(currentBlock)
    {
      ghost var s := View();
      ClosesInBlock(s0, s, b, i, cn, bn, i + 1);
      var node := NewNode(currentStmtId + 1);
      breaksInCurrentLoop := breaksInCurrentLoop + [node];
      prevNodes := prevNodes + [node];
      ghost var s' := View();
      forall tr
        ensures StmtBuiltAt(s', b, |s0.g.nodes|, |s.g.nodes|, [], [node], i, tr)
      {
        WhileControlTracks(s', b, |s0.g.nodes|, node, i, tr);
      }
      LeavesStmt(s0, s, s', b, i, cn, bn, [], [node]);
    }

    /** One branch of an `if`: `end` is the node where it completes. */
    method VisitBranch(branch: Option<Block>, before: nat, ghost e: nat)
      returns (end: nat, ghost cx: seq<nat>, ghost bx: seq<nat>)
      requires CursorOk(View()) && beginLocation == -1 && prevNodes == [] && e <= before < |nodes|
      modifies this
      ensures BranchVisited(old(View()), View(), e, before, branch, end, cx, bx)
      ensures currentBlock == old(currentBlock) && currentStmtId == old(currentStmtId)
      decreases branch, 4
    {
      ghost var s := View();
      if branch.None? {
        end, cx, bx := before, [], [];
        SkipsBranch(s, e, before);
      } else {
        var branchBegin := |nodes|;
        cx, bx := VisitBlock(branch.value);
        AttachesBranch(s, View(), e, before, branch.value, cx, bx);
        edges := edges + {(before, branchBegin)};
        end := |nodes| - 1;
      }
    }

    /** `visit(IfStmt)`, up to the edges into the next node. */
    method VisitBranches(st: Stmt, before: nat, ghost e: nat, ghost b: Block, ghost i: nat)
      returns (ghost cx: seq<nat>, ghost bx: seq<nat>)
      requires st.If? && i < |b.stmts| && b.stmts[i] == st && currentStmtId == i
      requires CursorOk(View()) && beginLocation == -1 && prevNodes == [] && e <= before < |nodes|
      modifies this
      ensures IfVisited(old(View()), View(), b, i, e, before, cx, bx)
      ensures currentBlock == old(currentBlock)
      decreases st, 1
    {
      ghost var s1 := View();
      var trueEnd, cx1, bx1 := VisitBranch(st.trueBlock, before, e);
      ghost var s3 := View();
      var falseEnd, cx2, bx2 := VisitBranch(st.falseBlock, before, e);
      ghost var s5 := View();
      assert prevNodes == [];
      if st.trueBlock.Some? {
        prevNodes := prevNodes + [trueEnd];
      }
      if st.falseBlock.Some? {
        prevNodes := prevNodes + [falseEnd];
      }
      if st.trueBlock.None? || st.falseBlock.None? {
        prevNodes := prevNodes + [before];
      }
      beginLocation := currentStmtId + 1;
      cx, bx := cx1 + cx2, bx1 + bx2;
      BothBranches(s1, s3, s5, View(), b, i, e, before, trueEnd, falseEnd, cx1, bx1, cx2, bx2);
    }

    method VisitIf(st: Stmt, ghost s0: Cursor, ghost b: Block, ghost i: nat, ghost cn: seq<nat>, ghost bn: seq<nat>)
      returns (ghost cx: seq<nat>, ghost bx: seq<nat>)
      requires CursorOk(s0) && At(s0, b, i, cn, bn) && i < |b.stmts| && b.stmts[i] == st && st.If?
      modifies this
      ensures InBlock(s0, View(), b, i + 1, cn + cx, bn + bx)
      ensures currentBlock == old(currentBlock)
      decreases st, 2
    {
      ghost var s := View();
      ClosesInBlock(s0, s, b, i, cn, bn, -1);
      var before := NewNode(-1);
      cx, bx := VisitBranches(st, before, |s0.g.nodes|, b, i);
      LeavesIf(s0, s, View(), b, i, cn, bn, cx, bx);
    }

    /** The visit of a loop statement: the node before the loop, then `visit_loop`. */
    method VisitLoopStmt(st: Stmt, ghost s0: Cursor, ghost b: Block, ghost i: nat, ghost cn: seq<nat>,
                         ghost bn: seq<nat>)
      requires CursorOk(s0) && At(s0, b, i, cn, bn) && i < |b.stmts| && b.stmts[i] == st && st.Loop?
      modifies this
      ensures InBlock(s0, View(), b, i + 1, cn + [], bn + [])
      ensures currentBlock == old(currentBlock)
      decreases st, 2
    {
      ghost var s := View();
      ClosesInBlock(s0, s, b, i, cn, bn, -1);
      var beforeLoop := NewNode(-1);
      ghost var s2, cx, bx := VisitLoop(st.body, beforeLoop, st.whileTrue);
      LeavesLoopStmt(s0, s, s2, View(), b, i, cn, bn, cx, bx);
    }

    /** `visit_loop`; `s2` is the state after the body. */
    method VisitLoop(body: Block, beforeLoop: nat, whileTrue: bool)
      returns (ghost s2: Cursor, ghost cx: seq<nat>, ghost bx: seq<nat>)
      requires CursorOk(View()) && beginLocation == -1 && prevNodes == [] && |nodes| == beforeLoop + 1
      modifies this
      ensures BlockVisited(old(View()).(conts := [], brks := []), s2, body, cx, bx)
      ensures LoopClosed(s2, View().g, prevNodes, beforeLoop, whileTrue, cx, bx)
      ensures beginLocation == currentStmtId + 1
      ensures continuesInCurrentLoop == old(continuesInCurrentLoop) && breaksInCurrentLoop == old(breaksInCurrentLoop)
      ensures currentBlock == old(currentBlock) && currentStmtId == old(currentStmtId)
      decreases body, 4, 1
    {
      var loopStmtId := currentStmtId;
      var backupContinues, backupBreaks := continuesInCurrentLoop, breaksInCurrentLoop;
      var loopBegin := |nodes|;
      cx, bx := VisitLoopBody(body);
      s2 := View();
      ConnectLoop(beforeLoop, loopBegin, |nodes| - 1, whileTrue, s2);
      beginLocation := loopStmtId + 1;
      continuesInCurrentLoop, breaksInCurrentLoop := backupContinues, backupBreaks;
    }

    /** The body of a loop starts with empty continue and break lists. */
    method VisitLoopBody(body: Block) returns (ghost cx: seq<nat>, ghost bx: seq<nat>)
      requires CursorOk(View()) && beginLocation == -1 && prevNodes == []
      modifies this
      ensures BlockVisited(old(View()).(conts := [], brks := []), View(), body, cx, bx)
      ensures continuesInCurrentLoop == cx && breaksInCurrentLoop == bx && prevNodes == [] && |nodes| > old(|nodes|)
      ensures currentBlock == old(currentBlock) && currentStmtId == old(currentStmtId)
      decreases body, 4, 0
    {
      continuesInCurrentLoop, breaksInCurrentLoop := [], [];
      ghost var s1 := View();
      assert s1 == old(View()).(conts := [], brks := []);
      cx, bx := VisitBlock(body);
      assert [] + cx == cx && [] + bx == bx;
    }

    /** The edges of `visit_loop`, and the nodes that wait for the node after the loop. */
    method ConnectLoop(beforeLoop: nat, loopBegin: nat, loopEnd: nat, whileTrue: bool, ghost s2: Cursor)
      requires prevNodes == [] && s2 == View() && loopBegin == beforeLoop + 1 && loopEnd == |nodes| - 1
      modifies `edges, `prevNodes
      ensures LoopClosed(s2, View().g, prevNodes, beforeLoop, whileTrue, continuesInCurrentLoop, breaksInCurrentLoop)
    {
      edges := edges + {(beforeLoop, loopBegin)};
      edges := edges + {(loopEnd, loopBegin)};
      if !whileTrue {
        prevNodes := prevNodes + [beforeLoop];
        prevNodes := prevNodes + [loopEnd];
      }
      ConnectContinues(loopBegin);
      prevNodes := prevNodes + breaksInCurrentLoop;
      assert EdgesTo([loopEnd] + continuesInCurrentLoop, loopBegin)
             == {(loopEnd, loopBegin)} + EdgesTo(continuesInCurrentLoop, loopBegin);
    }

    /** The loop over the continue nodes in `visit_loop`. */
    method ConnectContinues(loopBegin: nat)
      modifies `edges, `prevNodes
      ensures edges == old(edges) + EdgesTo(continuesInCurrentLoop, loopBegin)
      ensures prevNodes == old(prevNodes) + continuesInCurrentLoop
    {
      for j := 0 to |continuesInCurrentLoop|
        modifies `edges, `prevNodes
        invariant edges == old(edges) + EdgesTo(continuesInCurrentLoop[..j], loopBegin)
        invariant prevNodes == old(prevNodes) + continuesInCurrentLoop[..j]
      {
        assert continuesInCurrentLoop[..j + 1] == continuesInCurrentLoop[..j] + [continuesInCurrentLoop[j]];
        edges := edges + {(continuesInCurrentLoop[j], loopBegin)};
        prevNodes := prevNodes + [continuesInCurrentLoop[j]];
      }
      assert continuesInCurrentLoop[..|continuesInCurrentLoop|] == continuesInCurrentLoop;
    }

    /** Dispatch on one statement. */
    method Visit(st: Stmt, ghost s0: Cursor, ghost b: Block, ghost i: nat, ghost cn: seq<nat>, ghost bn: seq<nat>)
      returns (ghost cx: seq<nat>, ghost bx: seq<nat>)
      requires CursorOk(s0) && At(s0, b, i, cn, bn) && i < |b.stmts| && b.stmts[i] == st
      modifies this
      ensures InBlock(s0, View(), b, i + 1, cn + cx, bn + bx)
      ensures currentBlock == old(currentBlock)
      decreases st, 3
    {
      cx, bx := [], [];
      assert cn + [] == cn && bn + [] == bn;
      match st {
        case Plain => LeavesPlain(s0, View(), b, i, cn, bn);
        case Continue =>
          cx := [|nodes|];
          VisitContinue(s0, b, i, cn, bn);
        case WhileControl =>
          bx := [|nodes|];
          VisitWhileControl(s0, b, i, cn, bn);
        case If(_, _) => cx, bx := VisitIf(st, s0, b, i, cn, bn);
        case Loop(_, _) => VisitLoopStmt(st, s0, b, i, cn, bn);
      }
    }

    /** The loop over the statements in `visit(Block)`. */
    method VisitStatements(block: Block, ghost s0: Cursor) returns (ghost cx: seq<nat>, ghost bx: seq<nat>)
      requires CursorOk(s0) && currentBlock == Some(block) && InBlock(s0, View(), block, 0, [], [])
      modifies this
      ensures currentBlock == Some(block) && InBlock(s0, View(), block, |block.stmts|, cx, bx)
      decreases block, 2
    {
      cx, bx := [], [];
      for i := 0 to |block.stmts|
        invariant currentBlock == Some(block) && InBlock(s0, View(), block, i, cx, bx)
      {
        cx, bx := VisitNext(block, s0, i, cx, bx);
      }
    }

    /** One round of that loop. */
    method VisitNext(block: Block, ghost s0: Cursor, i: nat, ghost cn: seq<nat>, ghost bn: seq<nat>)
      returns (ghost cx: seq<nat>, ghost bx: seq<nat>)
      requires CursorOk(s0) && currentBlock == Some(block) && i < |block.stmts| && InBlock(s0, View(), block, i, cn, bn)
      modifies this
      ensures currentBlock == Some(block) && InBlock(s0, View(), block, i + 1, cx, bx)
      decreases block, 1
    {
      ghost var s := View();
      currentStmtId := i;
      assert View() == s;
      ghost var cx', bx' := Visit(block.stmts[i], s0, block, i, cn, bn);
      cx, bx := cn + cx', bn + bx';
    }

    /** `visit(Block)`. Its two assertions hold wherever the builder enters a block. */
    method VisitBlock(block: Block) returns (ghost cx: seq<nat>, ghost bx: seq<nat>)
      requires CursorOk(View()) && beginLocation == -1 && (prevNodes == [] || |nodes| == 1)
      modifies this
      ensures BlockVisited(old(View()), View(), block, cx, bx)
      ensures finalNode == |nodes| - 1
      ensures currentBlock == old(currentBlock) && currentStmtId == old(currentStmtId)
      decreases block, 3
    {
      var backupBlock, backupStmtId := currentBlock, currentStmtId;
      ghost var s0 := View();
      currentBlock := Some(block);
      beginLocation := 0;
      EntersBlock(s0, block);
      cx, bx := VisitStatements(block, s0);
      currentStmtId := |block.stmts|;
      LeavesBlock(s0, View(), block, cx, bx);
      var _ := NewNode(-1);
      finalNode := |nodes| - 1;
      currentBlock, currentStmtId := backupBlock, backupStmtId;
    }
  }

  /******* The whole graph *******/

  /** The graph holds every ordinary statement of `root` in exactly one node, and its paths from the
      start node to `final` spell exactly the runs of `root` that complete normally. */
  ghost predicate Represents(g: Graph, final: nat, root: Block) {
    && GraphOk(g) && 0 < final < |g.nodes|
    && Covered(g.nodes) == Ordinary(root)
    && forall tr :: Path(g, 0, final, tr) <==> BlockExec(true, root, Normal, tr)
  }

  lemma StartPaths(g: Graph, h: Graph, t: seq<Loc>)
    requires |g.nodes| == 1 && g.edges == {} && Spelled(g.nodes[0]) == [] && OldEntries(g, h)
    ensures Path(h, 0, 0, t) <==> t == []
  {
    PathRestricts(g, h, 0, 0, t);
    PathHere(g, 0);
    if Path(g, 0, 0, t) {
      var n: nat :| PathIn(g, n, 0, 0, t);
    }
  }

  lemma RootPaths(s0: Cursor, s: Cursor, b: Block, cx: seq<nat>, bx: seq<nat>, tr: seq<Loc>)
    requires |s0.g.nodes| == 1 && s0.g.edges == {} && s0.prev == [0] && Spelled(s0.g.nodes[0]) == []
    requires BlockVisited(s0, s, b, cx, bx)
    ensures Path(s.g, 0, |s.g.nodes| - 1, tr) <==> BlockExec(true, b, Normal, tr)
  {
    var last := |s.g.nodes| - 1;
    assert Gate(s.g, 0, 1);
    GatePaths(s.g, 0, 1, 0, last, tr);
    assert BuiltAt(s.g, b, 1, cx, bx, tr);
    forall t
      ensures Path(s.g, 0, 0, t) <==> t == []
    {
      StartPaths(s0.g, s.g, t);
    }
    assert [] + tr == tr;
    if t1, t2 :| Path(s.g, 0, 0, t1) && Path(s.g, 1, last, t2) && tr == t1 + t2 {
      assert [] + t2 == t2;
    }
  }

  lemma RootBuilt(s0: Cursor, s: Cursor, b: Block, cx: seq<nat>, bx: seq<nat>)
    requires s0.g == Graph([Node(0, -1, -1)], {}) && s0.prev == [0] && BlockVisited(s0, s, b, cx, bx)
    ensures Represents(s.g, |s.g.nodes| - 1, b)
  {
    var last := |s.g.nodes| - 1;
    forall tr
      ensures Path(s.g, 0, last, tr) <==> BlockExec(true, b, Normal, tr)
    {
      RootPaths(s0, s, b, cx, bx, tr);
    }
    CoveredSnoc([], Node(0, -1, -1));
  }

  /** Adding an empty final node does not change what paths spell. */
  lemma FinalNodePaths(g: Graph, h: Graph, tr: seq<Loc>)
    requires GraphOk(g) && |g.nodes| > 1
    requires h == Graph(g.nodes + [Node(0, -1, -1)], g.edges + {(|g.nodes| - 1, |g.nodes|)})
    ensures Path(h, 0, |g.nodes|, tr) <==> Path(g, 0, |g.nodes| - 1, tr)
  {
    var last := |g.nodes| - 1;
    assert OldEntries(g, h);
    PathRestricts(g, h, 0, last, tr);
    assert tr + [] == tr && Spelled(h.nodes[last + 1]) == [];
    if Path(h, 0, last + 1, tr) {
      var n: nat :| PathIn(h, n, 0, last + 1, tr);
      var m, t :| (m, last + 1) in h.edges && PathIn(h, n - 1, 0, m, t) && tr == t + Spelled(h.nodes[last + 1]);
      assert m == last && t + [] == t;
    }
    if Path(h, 0, last, tr) {
      PathStep(h, 0, last, last + 1, tr);
    }
  }

  lemma FinalNodeBuilt(g: Graph, h: Graph, root: Block)
    requires |g.nodes| > 1 && Represents(g, |g.nodes| - 1, root)
    requires h == Graph(g.nodes + [Node(0, -1, -1)], g.edges + {(|g.nodes| - 1, |g.nodes|)})
    ensures Represents(h, |g.nodes|, root)
  {
    var final := |g.nodes|;
    forall tr
      ensures Path(h, 0, final, tr) <==> BlockExec(true, root, Normal, tr)
    {
      FinalNodePaths(g, h, tr);
    }
    CoveredSnoc(g.nodes, Node(0, -1, -1));
  }

  predicate EmptyNode(n: Node) {
    n.begin >= n.end
  }

  /** `build_cfg`: the graph has an empty start node and an empty final node and represents the
      program. */
  method BuildCfg(root: Block) returns (g: Graph, final: nat)
    ensures Represents(g, final, root) && EmptyNode(g.nodes[0]) && EmptyNode(g.nodes[final])
  {
    var builder := new Builder();
    ghost var s0 := builder.View();
    ghost var cx, bx := builder.VisitBlock(root);
    ghost var s := builder.View();
    RootBuilt(s0, s, root, cx, bx);
    if !EmptyNode(builder.nodes[builder.finalNode]) {
      builder.nodes := builder.nodes + [Node(0, -1, -1)];
      builder.edges := builder.edges + {(builder.finalNode, |builder.nodes| - 1)};
      builder.finalNode := |builder.nodes| - 1;
      FinalNodeBuilt(s.g, builder.View().g, root);
    }
    g, final := Graph(builder.nodes, builder.edges), builder.finalNode;
  }
}

/**
 Structured IR, its runs, and graphs of statement ranges: what the control-flow graph builder is
 judged against. A run is observed as the locations of the ordinary statements it executes.
 */
module Cfg {
  import opened Options

  /** A statement position: blocks are compared by identity, so a block carries a number. */
  datatype Loc = Loc(block: nat, index: int)

  datatype Block = Block(id: nat, stmts: seq<Stmt>)

  /** `Loop` is `WhileStmt` when `whileTrue`, otherwise a range-for, struct-for or mesh-for. */
  datatype Stmt =
    | Plain
    | Continue
    | WhileControl
    | If(trueBlock: Option<Block>, falseBlock: Option<Block>)
    | Loop(body: Block, whileTrue: bool)

  datatype Outcome = Normal | Continued | Broke

  /******* Runs *******/

  /** A run of statement `i` of block `bid` with trace `tr` and outcome `o`. Branch conditions, trip
      counts and `WhileControl` conditions are unknown, so every choice is a run. A `while` loop is
      left through `WhileControl` only, unless `loose`, when an iteration that ends in `continue`
      may also be its last. */
  ghost predicate StmtExec(loose: bool, bid: nat, i: int, st: Stmt, o: Outcome, tr: seq<Loc>)
    decreases st, 0, 0
  {
    match st
    case Plain => o.Normal? && tr == [Loc(bid, i)]
    case Continue => o.Continued? && tr == []
    case WhileControl => !o.Continued? && tr == []
    case If(t, e) => BranchExec(loose, t, o, tr) || BranchExec(loose, e, o, tr)
    case Loop(body, whileTrue) =>
      && o.Normal?
      && exists n: nat, t1, t2 ::
        Iterations(loose, body, n, t1) && LastIteration(loose, body, whileTrue, t2) && tr == t1 + t2
  }

  ghost predicate BranchExec(loose: bool, b: Option<Block>, o: Outcome, tr: seq<Loc>)
    decreases b, 3, 0
  {
    match b
    case None => o.Normal? && tr == []
    case Some(block) => BlockExec(loose, block, o, tr)
  }

  /** `n` iterations, none of which leaves the loop. */
  ghost predicate Iterations(loose: bool, body: Block, n: nat, tr: seq<Loc>)
    decreases body, 4, n
  {
    if n == 0 then tr == []
    else exists t1, t2 :: Iterations(loose, body, n - 1, t1) && IterationGoesOn(loose, body, t2) && tr == t1 + t2
  }

  ghost predicate IterationGoesOn(loose: bool, body: Block, tr: seq<Loc>)
    decreases body, 3, 0
  {
    BlockExec(loose, body, Normal, tr) || BlockExec(loose, body, Continued, tr)
  }

  /** What may happen after the last iteration that does not leave the loop. */
  ghost predicate LastIteration(loose: bool, body: Block, whileTrue: bool, tr: seq<Loc>)
    decreases body, 3, 0
  {
    || BlockExec(loose, body, Broke, tr)
    || (!whileTrue && tr == [])
    || (whileTrue && loose && BlockExec(loose, body, Continued, tr))
  }

  /** The first `k` statements all complete normally. */
  ghost predicate PrefixExec(loose: bool, b: Block, k: nat, tr: seq<Loc>)
    requires k <= |b.stmts|
    decreases b, 1, k
  {
    if k == 0 then tr == []
    else exists t1, t2 ::
      PrefixExec(loose, b, k - 1, t1) && StmtExec(loose, b.id, k - 1, b.stmts[k - 1], Normal, t2) && tr == t1 + t2
  }

  /** Some statement among the first `k` ends the block early with outcome `o`. */
  ghost predicate EarlyExec(loose: bool, b: Block, k: nat, o: Outcome, tr: seq<Loc>)
    requires k <= |b.stmts|
    decreases b, 2, k
  {
    k > 0 && !o.Normal? &&
    (EarlyExec(loose, b, k - 1, o, tr) ||
     exists t1, t2 ::
       PrefixExec(loose, b, k - 1, t1) && StmtExec(loose, b.id, k - 1, b.stmts[k - 1], o, t2) && tr == t1 + t2)
  }

  ghost predicate BlockExec(loose: bool, b: Block, o: Outcome, tr: seq<Loc>)
    decreases b, 2, |b.stmts| + 1
  {
    if o.Normal? then PrefixExec(loose, b, |b.stmts|, tr) else EarlyExec(loose, b, |b.stmts|, o, tr)
  }

  /******* Graphs *******/

  datatype Node = Node(block: nat, begin: int, end: int)

  datatype Graph = Graph(nodes: seq<Node>, edges: set<(nat, nat)>)

  /** The locations `from`, ..., `to - 1` of a block. */
  ghost function Range(bid: nat, from: int, to: int): seq<Loc>
    decreases to - from
  {
    if from >= to then [] else Range(bid, from, to - 1) + [Loc(bid, to - 1)]
  }

  ghost function Spelled(n: Node): seq<Loc> {
    Range(n.block, n.begin, n.end)
  }

  ghost predicate GraphOk(g: Graph) {
    forall m, k :: (m, k) in g.edges ==> m < |g.nodes| && k < |g.nodes|
  }

  /** A path of `n` edges from `a` to `b` whose ranges, both ends included, spell `tr`. */
  ghost predicate PathIn(g: Graph, n: nat, a: nat, b: nat, tr: seq<Loc>) {
    && b < |g.nodes|
    && if n == 0 then a == b && tr == Spelled(g.nodes[b])
       else exists m, t :: (m, b) in g.edges && PathIn(g, n - 1, a, m, t) && tr == t + Spelled(g.nodes[b])
  }

  ghost predicate Path(g: Graph, a: nat, b: nat, tr: seq<Loc>) {
    exists n: nat :: PathIn(g, n, a, b, tr)
  }

  ghost predicate Split(g: Graph, a: nat, m: nat, h: Graph, k: nat, b: nat, tr: seq<Loc>) {
    exists t1, t2 :: Path(g, a, m, t1) && Path(h, k, b, t2) && tr == t1 + t2
  }

  lemma Assoc(a: seq<Loc>, b: seq<Loc>, c: seq<Loc>)
    ensures (a + b) + c == a + (b + c)
  {
  }

  lemma PathHere(g: Graph, a: nat)
    requires a < |g.nodes|
    ensures Path(g, a, a, Spelled(g.nodes[a]))
  {
    assert PathIn(g, 0, a, a, Spelled(g.nodes[a]));
  }

  lemma PathStep(g: Graph, a: nat, m: nat, b: nat, t: seq<Loc>)
    requires Path(g, a, m, t) && (m, b) in g.edges && b < |g.nodes|
    ensures Path(g, a, b, t + Spelled(g.nodes[b]))
  {
    var n: nat :| PathIn(g, n, a, m, t);
    assert PathIn(g, n + 1, a, b, t + Spelled(g.nodes[b]));
  }

  lemma {:induction false} PathJoinIn(g: Graph, a: nat, m: nat, k: nat, n: nat, b: nat, t1: seq<Loc>, t2: seq<Loc>)
    requires Path(g, a, m, t1) && (m, k) in g.edges && PathIn(g, n, k, b, t2)
    ensures Path(g, a, b, t1 + t2)
    decreases n
  {
    if n == 0 {
      PathStep(g, a, m, k, t1);
    } else {
      var j, t :| (j, b) in g.edges && PathIn(g, n - 1, k, j, t) && t2 == t + Spelled(g.nodes[b]);
      PathJoinIn(g, a, m, k, n - 1, j, t1, t);
      PathStep(g, a, j, b, t1 + t);
      Assoc(t1, t, Spelled(g.nodes[b]));
    }
  }

  /** Paths joined by an edge. */
  lemma PathJoin(g: Graph, a: nat, m: nat, k: nat, b: nat, t1: seq<Loc>, t2: seq<Loc>)
    requires Path(g, a, m, t1) && (m, k) in g.edges && Path(g, k, b, t2)
    ensures Path(g, a, b, t1 + t2)
  {
    var n: nat :| PathIn(g, n, k, b, t2);
    PathJoinIn(g, a, m, k, n, b, t1, t2);
  }

  /** `h` has the nodes and edges of `g`, and maybe more. */
  ghost predicate Extends(g: Graph, h: Graph) {
    g.nodes <= h.nodes && g.edges <= h.edges
  }

  lemma {:induction false} PathExtendsIn(g: Graph, h: Graph, n: nat, a: nat, b: nat, tr: seq<Loc>)
    requires Extends(g, h) && PathIn(g, n, a, b, tr)
    ensures PathIn(h, n, a, b, tr)
  {
    if n > 0 {
      var m, t :| (m, b) in g.edges && PathIn(g, n - 1, a, m, t) && tr == t + Spelled(g.nodes[b]);
      PathExtendsIn(g, h, n - 1, a, m, t);
    }
  }

  lemma PathExtends(g: Graph, h: Graph, a: nat, b: nat, tr: seq<Loc>)
    requires Extends(g, h) && Path(g, a, b, tr)
    ensures Path(h, a, b, tr)
  {
    var n: nat :| PathIn(g, n, a, b, tr);
    PathExtendsIn(g, h, n, a, b, tr);
  }

  /** `h` adds no edge into a node of `g`. */
  ghost predicate OldEntries(g: Graph, h: Graph) {
    && Extends(g, h) && GraphOk(g)
    && forall m, k :: (m, k) in h.edges && k < |g.nodes| ==> (m, k) in g.edges
  }

  lemma {:induction false} PathRestrictsIn(g: Graph, h: Graph, n: nat, a: nat, b: nat, tr: seq<Loc>)
    requires OldEntries(g, h) && PathIn(h, n, a, b, tr) && b < |g.nodes|
    ensures PathIn(g, n, a, b, tr)
  {
    if n > 0 {
      var m, t :| (m, b) in h.edges && PathIn(h, n - 1, a, m, t) && tr == t + Spelled(h.nodes[b]);
      PathRestrictsIn(g, h, n - 1, a, m, t);
    }
  }

  /** Paths to old nodes are the old paths. */
  lemma PathRestricts(g: Graph, h: Graph, a: nat, b: nat, tr: seq<Loc>)
    requires OldEntries(g, h) && b < |g.nodes|
    ensures Path(h, a, b, tr) <==> Path(g, a, b, tr)
  {
    if Path(h, a, b, tr) {
      var n: nat :| PathIn(h, n, a, b, tr);
      PathRestrictsIn(g, h, n, a, b, tr);
    }
    if Path(g, a, b, tr) {
      PathExtends(g, h, a, b, tr);
    }
  }

  lemma {:induction false} NoPathFromNewIn(g: Graph, n: nat, a: nat, b: nat, tr: seq<Loc>)
    requires GraphOk(g) && b < |g.nodes| <= a
    ensures !PathIn(g, n, a, b, tr)
  {
    if PathIn(g, n, a, b, tr) {
      var m, t :| (m, b) in g.edges && PathIn(g, n - 1, a, m, t) && tr == t + Spelled(g.nodes[b]);
      NoPathFromNewIn(g, n - 1, a, m, t);
    }
  }

  /** A node that is not in the graph reaches nothing in it. */
  lemma NoPathFromNew(g: Graph, a: nat, b: nat, tr: seq<Loc>)
    requires GraphOk(g) && b < |g.nodes| <= a
    ensures !Path(g, a, b, tr)
  {
    forall n: nat
      ensures !PathIn(g, n, a, b, tr)
    {
      NoPathFromNewIn(g, n, a, b, tr);
    }
  }

  /** The nodes from `cut` on are entered through the edge `(n, cut)` only and never left. */
  ghost predicate Gate(g: Graph, n: nat, cut: nat) {
    && n < cut && (n, cut) in g.edges
    && forall m, k :: (m, k) in g.edges ==> (m < cut <= k ==> m == n && k == cut) && (cut <= m ==> cut <= k)
  }

  lemma {:induction false} GateSplits(g: Graph, n: nat, cut: nat, len: nat, a: nat, b: nat, tr: seq<Loc>)
    requires GraphOk(g) && Gate(g, n, cut) && a < cut <= b && PathIn(g, len, a, b, tr)
    ensures Split(g, a, n, g, cut, b, tr)
    decreases len
  {
    var m, t :| (m, b) in g.edges && PathIn(g, len - 1, a, m, t) && tr == t + Spelled(g.nodes[b]);
    if m < cut {
      assert m == n && b == cut;
      PathHere(g, cut);
      assert Path(g, a, n, t);
    } else {
      GateSplits(g, n, cut, len - 1, a, m, t);
      var t1, t2 :| Path(g, a, n, t1) && Path(g, cut, m, t2) && t == t1 + t2;
      PathStep(g, cut, m, b, t2);
      Assoc(t1, t2, Spelled(g.nodes[b]));
    }
  }

  /** Paths through a gate are a path to it and a path from it. */
  lemma GatePaths(g: Graph, n: nat, cut: nat, a: nat, b: nat, tr: seq<Loc>)
    requires GraphOk(g) && Gate(g, n, cut) && a < cut <= b
    ensures Path(g, a, b, tr) <==> Split(g, a, n, g, cut, b, tr)
  {
    if Path(g, a, b, tr) {
      var len: nat :| PathIn(g, len, a, b, tr);
      GateSplits(g, n, cut, len, a, b, tr);
    }
    if Split(g, a, n, g, cut, b, tr) {
      var t1, t2 :| Path(g, a, n, t1) && Path(g, cut, b, t2) && tr == t1 + t2;
      PathJoin(g, a, n, cut, b, t1, t2);
    }
  }

  lemma {:induction false} InsideGateIn(g: Graph, h: Graph, n: nat, cut: nat, len: nat, a: nat, b: nat, tr: seq<Loc>)
    requires GraphOk(h) && Gate(h, n, cut) && cut <= a && PathIn(h, len, a, b, tr)
    requires g.nodes == h.nodes && g.edges + {(n, cut)} == h.edges
    ensures cut <= b && PathIn(g, len, a, b, tr)
    decreases len
  {
    if len > 0 {
      var m, t :| (m, b) in h.edges && PathIn(h, len - 1, a, m, t) && tr == t + Spelled(h.nodes[b]);
      InsideGateIn(g, h, n, cut, len - 1, a, m, t);
      assert (m, b) in g.edges;
    }
  }

  /** The edge of a gate does not matter to paths that start behind it. */
  lemma InsideGate(g: Graph, h: Graph, n: nat, cut: nat, a: nat, b: nat, tr: seq<Loc>)
    requires GraphOk(h) && Gate(h, n, cut) && cut <= a
    requires g.nodes == h.nodes && g.edges + {(n, cut)} == h.edges
    ensures Path(h, a, b, tr) <==> Path(g, a, b, tr)
  {
    if Path(h, a, b, tr) {
      var len: nat :| PathIn(h, len, a, b, tr);
      InsideGateIn(g, h, n, cut, len, a, b, tr);
    }
    if Path(g, a, b, tr) {
      PathExtends(g, h, a, b, tr);
    }
  }
}

/**
 The states the builder goes through and why each of them tracks the runs of the program.
 */
module CfgTracking {
  import opened Options
  import opened Cfg

  /** The mutable part of the builder: the graph, the nodes waiting for an edge to the next node, the
      begin of the open range, and the continue and break nodes of the current loop. */
  datatype Cursor = Cursor(g: Graph, prev: seq<nat>, begin: int, conts: seq<nat>, brks: seq<nat>)

  ghost predicate AllBelow(ys: seq<nat>, n: nat) {
    forall y | y in ys :: y < n
  }

  ghost predicate CursorOk(s: Cursor) {
    && GraphOk(s.g)
    && AllBelow(s.prev, |s.g.nodes|) && AllBelow(s.conts, |s.g.nodes|) && AllBelow(s.brks, |s.g.nodes|)
  }

  /** Some node of `ys` is reached from `e` by a path that spells `tr`. */
  ghost predicate Hits(g: Graph, e: nat, ys: seq<nat>, tr: seq<Loc>) {
    exists y :: y in ys && Path(g, e, y, tr)
  }

  /** A path from the block's first node `e` spells `tr` up to statement `i`; when that node is not
      created yet, the open range does. */
  ghost predicate Here(s: Cursor, bid: nat, e: nat, i: nat, tr: seq<Loc>) {
    if |s.g.nodes| == e then tr == Range(bid, s.begin, i)
    else exists t :: Hits(s.g, e, s.prev, t) && tr == t + Range(bid, s.begin, i)
  }

  /** The state before statement `i` of block `b` accounts for exactly the runs of the statements
      before it; `cn` and `bn` are the continue and break nodes the block has added. */
  ghost predicate TracksAt(s: Cursor, b: Block, e: nat, cn: seq<nat>, bn: seq<nat>, i: nat, tr: seq<Loc>)
    requires i <= |b.stmts|
  {
    && (PrefixExec(true, b, i, tr) <==> Here(s, b.id, e, i, tr))
    && (EarlyExec(true, b, i, Continued, tr) <==> Hits(s.g, e, cn, tr))
    && (EarlyExec(true, b, i, Broke, tr) <==> Hits(s.g, e, bn, tr))
  }

  ghost predicate Tracks(s: Cursor, b: Block, e: nat, cn: seq<nat>, bn: seq<nat>, i: nat)
    requires i <= |b.stmts|
  {
    forall tr :: TracksAt(s, b, e, cn, bn, i, tr)
  }

  /** The paths of a finished block, from its first node `e` to its last node and to the continue and
      break nodes it added, spell exactly its runs. */
  ghost predicate BuiltAt(g: Graph, b: Block, e: nat, cn: seq<nat>, bn: seq<nat>, tr: seq<Loc>)
    requires |g.nodes| > 0
  {
    && (BlockExec(true, b, Normal, tr) <==> Path(g, e, |g.nodes| - 1, tr))
    && (BlockExec(true, b, Continued, tr) <==> Hits(g, e, cn, tr))
    && (BlockExec(true, b, Broke, tr) <==> Hits(g, e, bn, tr))
  }

  ghost predicate Built(g: Graph, b: Block, e: nat, cn: seq<nat>, bn: seq<nat>)
    requires |g.nodes| > 0
  {
    forall tr :: BuiltAt(g, b, e, cn, bn, tr)
  }

  /******* Closing the open range *******/

  ghost function EdgesTo(ys: seq<nat>, n: nat): set<(nat, nat)> {
    set y | y in ys :: (y, n)
  }

  ghost function Closed(s: Cursor, bid: nat, i: nat, next: int): Cursor {
    s.(g := Graph(s.g.nodes + [Node(bid, s.begin, i)], s.g.edges + EdgesTo(s.prev, |s.g.nodes|)),
       prev := [], begin := next)
  }

  lemma ClosedOk(s: Cursor, bid: nat, i: nat, next: int)
    requires CursorOk(s)
    ensures CursorOk(Closed(s, bid, i, next)) && OldEntries(s.g, Closed(s, bid, i, next).g)
  {
  }

  /** The new node is reached exactly where the open range was. */
  lemma ClosedPaths(s: Cursor, bid: nat, e: nat, i: nat, next: int, tr: seq<Loc>)
    requires CursorOk(s) && e <= |s.g.nodes|
    ensures Path(Closed(s, bid, i, next).g, e, |s.g.nodes|, tr) <==> Here(s, bid, e, i, tr)
  {
    var n := |s.g.nodes|;
    var h := Closed(s, bid, i, next).g;
    ClosedOk(s, bid, i, next);
    if Path(h, e, n, tr) {
      var len: nat :| PathIn(h, len, e, n, tr);
      if len > 0 {
        var m, t :| (m, n) in h.edges && PathIn(h, len - 1, e, m, t) && tr == t + Spelled(h.nodes[n]);
        assert m in s.prev;
        PathRestricts(s.g, h, e, m, t);
        if e == n {
          NoPathFromNew(s.g, e, m, t);
        }
      }
    }
    if Here(s, bid, e, i, tr) {
      if e == n {
        PathHere(h, n);
      } else {
        var t :| Hits(s.g, e, s.prev, t) && tr == t + Range(bid, s.begin, i);
        var y :| y in s.prev && Path(s.g, e, y, t);
        PathExtends(s.g, h, e, y, t);
        PathStep(h, e, y, n, t);
      }
    }
  }

  lemma HitsRestricts(g: Graph, h: Graph, e: nat, ys: seq<nat>, tr: seq<Loc>)
    requires OldEntries(g, h) && AllBelow(ys, |g.nodes|)
    ensures Hits(h, e, ys, tr) <==> Hits(g, e, ys, tr)
  {
    forall y | y in ys
      ensures Path(h, e, y, tr) <==> Path(g, e, y, tr)
    {
      PathRestricts(g, h, e, y, tr);
    }
  }

  lemma HitsConcat(g: Graph, e: nat, ys: seq<nat>, zs: seq<nat>, tr: seq<Loc>)
    ensures Hits(g, e, ys + zs, tr) <==> Hits(g, e, ys, tr) || Hits(g, e, zs, tr)
  {
    if Hits(g, e, ys, tr) {
      var y :| y in ys && Path(g, e, y, tr);
      assert y in ys + zs;
    }
    if Hits(g, e, zs, tr) {
      var y :| y in zs && Path(g, e, y, tr);
      assert y in ys + zs;
    }
  }

  lemma HitsOne(g: Graph, e: nat, y: nat, tr: seq<Loc>)
    ensures Hits(g, e, [y], tr) <==> Path(g, e, y, tr)
  {
    assert y in [y];
  }

  /** Node `n` is reached, then statement `i` runs. */
  ghost predicate After(g: Graph, e: nat, n: nat, b: Block, i: nat, o: Outcome, tr: seq<Loc>)
    requires i < |b.stmts|
  {
    exists t1, t2 :: Path(g, e, n, t1) && StmtExec(true, b.id, i, b.stmts[i], o, t2) && tr == t1 + t2
  }

  /** What visiting a statement that closes the open range has to achieve. */
  ghost predicate StmtBuiltAt(s: Cursor, b: Block, e: nat, n: nat, cn: seq<nat>, bn: seq<nat>, i: nat, tr: seq<Loc>)
    requires i < |b.stmts|
  {
    && (Hits(s.g, e, s.prev, tr) <==> After(s.g, e, n, b, i, Normal, tr))
    && (Hits(s.g, e, cn, tr) <==> After(s.g, e, n, b, i, Continued, tr))
    && (Hits(s.g, e, bn, tr) <==> After(s.g, e, n, b, i, Broke, tr))
  }

  lemma AfterIsNext(s: Cursor, h: Graph, b: Block, e: nat, cn: seq<nat>, bn: seq<nat>, i: nat, o: Outcome, tr: seq<Loc>)
    requires i < |b.stmts| && CursorOk(s) && e <= |s.g.nodes| && Tracks(s, b, e, cn, bn, i)
    requires OldEntries(Closed(s, b.id, i, 0).g, h)
    ensures After(h, e, |s.g.nodes|, b, i, o, tr) <==>
            exists t1, t2 :: PrefixExec(true, b, i, t1) && StmtExec(true, b.id, i, b.stmts[i], o, t2) && tr == t1 + t2
  {
    forall t
      ensures Path(h, e, |s.g.nodes|, t) <==> PrefixExec(true, b, i, t)
    {
      PathRestricts(Closed(s, b.id, i, 0).g, h, e, |s.g.nodes|, t);
      ClosedPaths(s, b.id, e, i, 0, t);
      assert TracksAt(s, b, e, cn, bn, i, t);
    }
  }

  /** From a statement that closes the open range to the state before the next statement. */
  lemma NextTracks(s: Cursor, s': Cursor, b: Block, e: nat, cn: seq<nat>, bn: seq<nat>, cx: seq<nat>, bx: seq<nat>,
                   i: nat, tr: seq<Loc>)
    requires i < |b.stmts| && CursorOk(s) && e <= |s.g.nodes| && Tracks(s, b, e, cn, bn, i)
    requires AllBelow(cn, |s.g.nodes|) && AllBelow(bn, |s.g.nodes|)
    requires OldEntries(Closed(s, b.id, i, 0).g, s'.g) && s'.begin == i + 1
    requires StmtBuiltAt(s', b, e, |s.g.nodes|, cx, bx, i, tr)
    ensures TracksAt(s', b, e, cn + cx, bn + bx, i + 1, tr)
  {
    var n := |s.g.nodes|;
    AfterIsNext(s, s'.g, b, e, cn, bn, i, Normal, tr);
    AfterIsNext(s, s'.g, b, e, cn, bn, i, Continued, tr);
    AfterIsNext(s, s'.g, b, e, cn, bn, i, Broke, tr);
    assert TracksAt(s, b, e, cn, bn, i, tr);
    ClosedOk(s, b.id, i, 0);
    HitsRestricts(s.g, s'.g, e, cn, tr);
    HitsRestricts(s.g, s'.g, e, bn, tr);
    HitsConcat(s'.g, e, cn, cx, tr);
    HitsConcat(s'.g, e, bn, bx, tr);
    assert Range(b.id, i + 1, i + 1) == [];
    assert forall t: seq<Loc> :: t + [] == t;
  }

  /******* Statements without a block *******/

  lemma {:induction false} RangeSnoc(bid: nat, from: int, to: int)
    requires from <= to
    ensures Range(bid, from, to + 1) == Range(bid, from, to) + [Loc(bid, to)]
  {
  }

  lemma HereSnoc(s: Cursor, bid: nat, e: nat, i: nat, t: seq<Loc>)
    requires s.begin <= i
    ensures Here(s, bid, e, i, t) <==> Here(s, bid, e, i + 1, t + [Loc(bid, i)])
  {
    var loc := [Loc(bid, i)];
    var open := Range(bid, s.begin, i);
    RangeSnoc(bid, s.begin, i);
    if |s.g.nodes| == e {
      if t + loc == open + loc {
        assert t == (t + loc)[..|t|] == open;
      }
    } else {
      if u :| Hits(s.g, e, s.prev, u) && t == u + open {
        assert t + loc == u + (open + loc);
      }
      if u :| Hits(s.g, e, s.prev, u) && t + loc == u + (open + loc) {
        assert t == (t + loc)[..|t|] == u + open;
      }
    }
  }

  lemma HereEndsPlain(s: Cursor, bid: nat, e: nat, i: nat, tr: seq<Loc>)
    requires s.begin <= i && Here(s, bid, e, i + 1, tr)
    ensures |tr| > 0 && tr == tr[..|tr| - 1] + [Loc(bid, i)]
  {
    RangeSnoc(bid, s.begin, i);
  }

  lemma PlainTracks(s: Cursor, b: Block, e: nat, cn: seq<nat>, bn: seq<nat>, i: nat, tr: seq<Loc>)
    requires i < |b.stmts| && b.stmts[i].Plain? && s.begin <= i && Tracks(s, b, e, cn, bn, i)
    ensures TracksAt(s, b, e, cn, bn, i + 1, tr)
  {
    assert TracksAt(s, b, e, cn, bn, i, tr);
    if PrefixExec(true, b, i + 1, tr) {
      var t1, t2 :| PrefixExec(true, b, i, t1) && StmtExec(true, b.id, i, b.stmts[i], Normal, t2) && tr == t1 + t2;
      assert TracksAt(s, b, e, cn, bn, i, t1);
      HereSnoc(s, b.id, e, i, t1);
    }
    if Here(s, b.id, e, i + 1, tr) {
      HereEndsPlain(s, b.id, e, i, tr);
      var t1 := tr[..|tr| - 1];
      HereSnoc(s, b.id, e, i, t1);
      assert TracksAt(s, b, e, cn, bn, i, t1);
      assert StmtExec(true, b.id, i, b.stmts[i], Normal, [Loc(b.id, i)]);
    }
  }

  /** `continue` and `while_control` execute nothing themselves, so `After` is reaching the node. */
  lemma AfterSilent(g: Graph, e: nat, n: nat, b: Block, i: nat, o: Outcome, tr: seq<Loc>)
    requires i < |b.stmts| && (b.stmts[i].Continue? || b.stmts[i].WhileControl?)
    ensures After(g, e, n, b, i, o, tr) <==> Path(g, e, n, tr) && StmtExec(true, b.id, i, b.stmts[i], o, [])
  {
    assert tr + [] == tr;
    if t1, t2 :| Path(g, e, n, t1) && StmtExec(true, b.id, i, b.stmts[i], o, t2) && tr == t1 + t2 {
      assert t1 + [] == t1;
    }
  }

  lemma ContinueTracks(s: Cursor, s': Cursor, b: Block, e: nat, n: nat, i: nat, tr: seq<Loc>)
    requires i < |b.stmts| && b.stmts[i].Continue? && s'.prev == []
    ensures StmtBuiltAt(s', b, e, n, [n], [], i, tr)
  {
    AfterSilent(s'.g, e, n, b, i, Normal, tr);
    AfterSilent(s'.g, e, n, b, i, Continued, tr);
    AfterSilent(s'.g, e, n, b, i, Broke, tr);
    HitsOne(s'.g, e, n, tr);
  }

  lemma WhileControlTracks(s': Cursor, b: Block, e: nat, n: nat, i: nat, tr: seq<Loc>)
    requires i < |b.stmts| && b.stmts[i].WhileControl? && s'.prev == [n]
    ensures StmtBuiltAt(s', b, e, n, [], [n], i, tr)
  {
    AfterSilent(s'.g, e, n, b, i, Normal, tr);
    AfterSilent(s'.g, e, n, b, i, Continued, tr);
    AfterSilent(s'.g, e, n, b, i, Broke, tr);
    HitsOne(s'.g, e, n, tr);
  }

  /******* Statements with blocks *******/

  /** Node `n` is reached, then a branch or block runs. */
  ghost predicate AfterBranch(g: Graph, e: nat, n: nat, b: Option<Block>, o: Outcome, tr: seq<Loc>) {
    exists t1, t2 :: Path(g, e, n, t1) && BranchExec(true, b, o, t2) && tr == t1 + t2
  }

  /** A branch block hangs below node `n`: `end` is where it completes, `cx` and `bx` its early ends. */
  ghost predicate BranchBuiltAt(g: Graph, e: nat, n: nat, b: Option<Block>, end: nat, cx: seq<nat>, bx: seq<nat>,
                                tr: seq<Loc>) {
    && (Path(g, e, end, tr) <==> AfterBranch(g, e, n, b, Normal, tr))
    && (Hits(g, e, cx, tr) <==> AfterBranch(g, e, n, b, Continued, tr))
    && (Hits(g, e, bx, tr) <==> AfterBranch(g, e, n, b, Broke, tr))
  }

  lemma AbsentBranch(g: Graph, e: nat, n: nat, tr: seq<Loc>)
    ensures BranchBuiltAt(g, e, n, None, n, [], [], tr)
  {
    assert BranchExec(true, None, Normal, []) && tr + [] == tr;
    if t1, t2 :| Path(g, e, n, t1) && BranchExec(true, None, Normal, t2) && tr == t1 + t2 {
      assert t1 + [] == t1;
    }
  }

  /** `h` is `g`, where block nodes start at `cut`, with the edge from `n` added. */
  ghost predicate Attached(g1: Graph, g: Graph, h: Graph, n: nat, cut: nat) {
    && cut == |g1.nodes| < |g.nodes| && n < cut
    && OldEntries(g1, g) && GraphOk(g)
    && (forall m, k :: (m, k) in g.edges && m < cut ==> k < cut)
    && h == Graph(g.nodes, g.edges + {(n, cut)})
  }

  lemma AttachedGate(g1: Graph, g: Graph, h: Graph, n: nat, cut: nat)
    requires Attached(g1, g, h, n, cut)
    ensures GraphOk(h) && Gate(h, n, cut) && OldEntries(g1, h)
  {
  }

  /** Reaching a node of an attached block is reaching `n` and going on from the block's first node. */
  lemma AttachedPaths(g1: Graph, g: Graph, h: Graph, n: nat, cut: nat, e: nat, y: nat, tr: seq<Loc>)
    requires Attached(g1, g, h, n, cut) && e < cut <= y
    ensures Path(h, e, y, tr) <==> Split(h, e, n, g, cut, y, tr)
  {
    AttachedGate(g1, g, h, n, cut);
    GatePaths(h, n, cut, e, y, tr);
    forall t
      ensures Path(h, cut, y, t) <==> Path(g, cut, y, t)
    {
      InsideGate(g, h, n, cut, cut, y, t);
    }
  }

  ghost predicate AllFrom(ys: seq<nat>, n: nat) {
    forall y | y in ys :: n <= y
  }

  lemma AttachedHits(g1: Graph, g: Graph, h: Graph, n: nat, cut: nat, e: nat, ys: seq<nat>, tr: seq<Loc>)
    requires Attached(g1, g, h, n, cut) && e < cut && AllFrom(ys, cut)
    ensures Hits(h, e, ys, tr) <==> exists t1, t2 :: Path(h, e, n, t1) && Hits(g, cut, ys, t2) && tr == t1 + t2
  {
    if Hits(h, e, ys, tr) {
      var y :| y in ys && Path(h, e, y, tr);
      AttachedPaths(g1, g, h, n, cut, e, y, tr);
      var t1, t2 :| Path(h, e, n, t1) && Path(g, cut, y, t2) && tr == t1 + t2;
      assert Hits(g, cut, ys, t2);
    }
    if t1, t2 :| Path(h, e, n, t1) && Hits(g, cut, ys, t2) && tr == t1 + t2 {
      var y :| y in ys && Path(g, cut, y, t2);
      AttachedPaths(g1, g, h, n, cut, e, y, tr);
    }
  }

  lemma BranchBuilt(g1: Graph, g: Graph, h: Graph, n: nat, cut: nat, e: nat, b: Block, cx: seq<nat>, bx: seq<nat>,
                    tr: seq<Loc>)
    requires Attached(g1, g, h, n, cut) && e < cut && Built(g, b, cut, cx, bx) && AllFrom(cx, cut) && AllFrom(bx, cut)
    ensures BranchBuiltAt(h, e, n, Some(b), |g.nodes| - 1, cx, bx, tr)
  {
    AttachedPaths(g1, g, h, n, cut, e, |g.nodes| - 1, tr);
    AttachedHits(g1, g, h, n, cut, e, cx, tr);
    AttachedHits(g1, g, h, n, cut, e, bx, tr);
    forall t
      ensures BranchExec(true, Some(b), Normal, t) <==> Path(g, cut, |g.nodes| - 1, t)
      ensures BranchExec(true, Some(b), Continued, t) <==> Hits(g, cut, cx, t)
      ensures BranchExec(true, Some(b), Broke, t) <==> Hits(g, cut, bx, t)
    {
      assert BuiltAt(g, b, cut, cx, bx, t);
    }
  }

  /** A branch stays built when later nodes and edges do not lead into it. */
  lemma BranchStays(g: Graph, h: Graph, e: nat, n: nat, b: Option<Block>, end: nat, cx: seq<nat>, bx: seq<nat>,
                    tr: seq<Loc>)
    requires OldEntries(g, h) && n < |g.nodes| && end < |g.nodes| && AllBelow(cx, |g.nodes|) && AllBelow(bx, |g.nodes|)
    requires BranchBuiltAt(g, e, n, b, end, cx, bx, tr)
    ensures BranchBuiltAt(h, e, n, b, end, cx, bx, tr)
  {
    forall t
      ensures Path(h, e, n, t) <==> Path(g, e, n, t)
    {
      PathRestricts(g, h, e, n, t);
    }
    PathRestricts(g, h, e, end, tr);
    HitsRestricts(g, h, e, cx, tr);
    HitsRestricts(g, h, e, bx, tr);
  }

  lemma AfterIf(g: Graph, e: nat, n: nat, b: Block, i: nat, o: Outcome, tr: seq<Loc>)
    requires i < |b.stmts| && b.stmts[i].If?
    ensures After(g, e, n, b, i, o, tr) <==>
            AfterBranch(g, e, n, b.stmts[i].trueBlock, o, tr) || AfterBranch(g, e, n, b.stmts[i].falseBlock, o, tr)
  {
  }

  lemma IfTracks(s': Cursor, b: Block, e: nat, n: nat, i: nat, end1: nat, end2: nat,
                 cx1: seq<nat>, bx1: seq<nat>, cx2: seq<nat>, bx2: seq<nat>, tr: seq<Loc>)
    requires i < |b.stmts| && b.stmts[i].If?
    requires BranchBuiltAt(s'.g, e, n, b.stmts[i].trueBlock, end1, cx1, bx1, tr)
    requires BranchBuiltAt(s'.g, e, n, b.stmts[i].falseBlock, end2, cx2, bx2, tr)
    requires forall y :: y in s'.prev <==> y == end1 || y == end2
    ensures StmtBuiltAt(s', b, e, n, cx1 + cx2, bx1 + bx2, i, tr)
  {
    AfterIf(s'.g, e, n, b, i, Normal, tr);
    AfterIf(s'.g, e, n, b, i, Continued, tr);
    AfterIf(s'.g, e, n, b, i, Broke, tr);
    HitsConcat(s'.g, e, cx1, cx2, tr);
    HitsConcat(s'.g, e, bx1, bx2, tr);
    assert end1 in s'.prev && end2 in s'.prev;
  }

  /******* Loops *******/

  /** `h` is `g` with an edge from every node of `ks` back to the block's first node `cut`. */
  ghost predicate LoopedBack(g: Graph, h: Graph, cut: nat, ks: seq<nat>) {
    && GraphOk(g) && cut < |g.nodes| && AllBelow(ks, |g.nodes|)
    && h == Graph(g.nodes, g.edges + EdgesTo(ks, cut))
  }

  /** Some iterations that stay in the loop, then a path inside the body to `y`. */
  ghost predicate Around(g: Graph, body: Block, cut: nat, y: nat, tr: seq<Loc>) {
    exists n: nat, t1, t2 :: Iterations(true, body, n, t1) && Path(g, cut, y, t2) && tr == t1 + t2
  }

  ghost predicate GoesOnAt(g: Graph, body: Block, cut: nat, ks: seq<nat>, tr: seq<Loc>) {
    IterationGoesOn(true, body, tr) <==> Hits(g, cut, ks, tr)
  }

  lemma AroundStep(g: Graph, body: Block, cut: nat, m: nat, y: nat, t: seq<Loc>)
    requires Around(g, body, cut, m, t) && (m, y) in g.edges && y < |g.nodes|
    ensures Around(g, body, cut, y, t + Spelled(g.nodes[y]))
  {
    var n: nat, t1, t2 :| Iterations(true, body, n, t1) && Path(g, cut, m, t2) && t == t1 + t2;
    PathStep(g, cut, m, y, t2);
    Assoc(t1, t2, Spelled(g.nodes[y]));
  }

  lemma AroundBack(g: Graph, body: Block, cut: nat, ks: seq<nat>, m: nat, t: seq<Loc>)
    requires Around(g, body, cut, m, t) && m in ks && cut < |g.nodes|
    requires forall t :: GoesOnAt(g, body, cut, ks, t)
    ensures Around(g, body, cut, cut, t + Spelled(g.nodes[cut]))
  {
    var n: nat, t1, t2 :| Iterations(true, body, n, t1) && Path(g, cut, m, t2) && t == t1 + t2;
    assert Hits(g, cut, ks, t2) && GoesOnAt(g, body, cut, ks, t2);
    assert Iterations(true, body, n + 1, t);
    PathHere(g, cut);
  }

  lemma {:induction false} LoopSplits(g: Graph, h: Graph, body: Block, cut: nat, ks: seq<nat>, len: nat, y: nat,
                                      tr: seq<Loc>)
    requires LoopedBack(g, h, cut, ks) && forall t :: GoesOnAt(g, body, cut, ks, t)
    requires PathIn(h, len, cut, y, tr)
    ensures Around(g, body, cut, y, tr)
    decreases len
  {
    if len == 0 {
      PathHere(g, cut);
      assert Iterations(true, body, 0, []);
      assert tr == [] + tr;
    } else {
      var m, t :| (m, y) in h.edges && PathIn(h, len - 1, cut, m, t) && tr == t + Spelled(h.nodes[y]);
      LoopSplits(g, h, body, cut, ks, len - 1, m, t);
      if (m, y) in g.edges {
        AroundStep(g, body, cut, m, y, t);
      } else {
        AroundBack(g, body, cut, ks, m, t);
      }
    }
  }

  /** One more iteration in front of a path. */
  lemma LoopAgain(g: Graph, h: Graph, body: Block, cut: nat, ks: seq<nat>, y: nat, t1: seq<Loc>, t2: seq<Loc>)
    requires LoopedBack(g, h, cut, ks) && GoesOnAt(g, body, cut, ks, t1)
    requires IterationGoesOn(true, body, t1) && Path(h, cut, y, t2)
    ensures Path(h, cut, y, t1 + t2)
  {
    var k :| k in ks && Path(g, cut, k, t1);
    PathExtends(g, h, cut, k, t1);
    PathJoin(h, cut, k, cut, y, t1, t2);
  }

  lemma {:induction false} LoopJoins(g: Graph, h: Graph, body: Block, cut: nat, ks: seq<nat>, n: nat, y: nat,
                                     t1: seq<Loc>, t2: seq<Loc>)
    requires LoopedBack(g, h, cut, ks) && forall t :: GoesOnAt(g, body, cut, ks, t)
    requires Iterations(true, body, n, t1) && Path(h, cut, y, t2)
    ensures Path(h, cut, y, t1 + t2)
    decreases n
  {
    if n == 0 {
      assert t1 + t2 == t2;
    } else {
      var u1, u2 :| Iterations(true, body, n - 1, u1) && IterationGoesOn(true, body, u2) && t1 == u1 + u2;
      assert GoesOnAt(g, body, cut, ks, u2);
      LoopAgain(g, h, body, cut, ks, y, u2, t2);
      LoopJoins(g, h, body, cut, ks, n - 1, y, u1, u2 + t2);
      Assoc(u1, u2, t2);
    }
  }

  /** Paths inside a loop are some whole iterations and a path inside the body. */
  lemma LoopPaths(g: Graph, h: Graph, body: Block, cut: nat, ks: seq<nat>, y: nat, tr: seq<Loc>)
    requires LoopedBack(g, h, cut, ks) && forall t :: GoesOnAt(g, body, cut, ks, t)
    ensures Path(h, cut, y, tr) <==> Around(g, body, cut, y, tr)
  {
    if Path(h, cut, y, tr) {
      var len: nat :| PathIn(h, len, cut, y, tr);
      LoopSplits(g, h, body, cut, ks, len, y, tr);
    }
    if Around(g, body, cut, y, tr) {
      var n: nat, t1, t2 :| Iterations(true, body, n, t1) && Path(g, cut, y, t2) && tr == t1 + t2;
      PathExtends(g, h, cut, y, t2);
      LoopJoins(g, h, body, cut, ks, n, y, t1, t2);
    }
  }

  /** The nodes whose next node is the one after the loop, apart from the node before it. */
  ghost function LoopExits(end: nat, whileTrue: bool, cx: seq<nat>, bx: seq<nat>): seq<nat> {
    (if whileTrue then [] else [end]) + cx + bx
  }

  /** `n` iterations in total, then out of the loop. */
  ghost predicate LeavesLoop(body: Block, whileTrue: bool, tr: seq<Loc>) {
    exists n: nat, t1, t2 :: Iterations(true, body, n, t1) && LastIteration(true, body, whileTrue, t2) && tr == t1 + t2
  }

  lemma BodyGoesOn(g: Graph, body: Block, cut: nat, cx: seq<nat>, bx: seq<nat>, t: seq<Loc>)
    requires |g.nodes| > 0 && Built(g, body, cut, cx, bx)
    ensures GoesOnAt(g, body, cut, [|g.nodes| - 1] + cx, t)
  {
    assert BuiltAt(g, body, cut, cx, bx, t);
    HitsConcat(g, cut, [|g.nodes| - 1], cx, t);
    HitsOne(g, cut, |g.nodes| - 1, t);
  }

  /** A path that ends in a loop exit has left the loop. */
  lemma ExitLeaves(g: Graph, body: Block, whileTrue: bool, cut: nat, cx: seq<nat>, bx: seq<nat>, y: nat, tr: seq<Loc>)
    requires |g.nodes| > 0 && Built(g, body, cut, cx, bx)
    requires y in LoopExits(|g.nodes| - 1, whileTrue, cx, bx) && Around(g, body, cut, y, tr)
    ensures LeavesLoop(body, whileTrue, tr)
  {
    var n: nat, t1, t2 :| Iterations(true, body, n, t1) && Path(g, cut, y, t2) && tr == t1 + t2;
    assert BuiltAt(g, body, cut, cx, bx, t2);
    if y in bx || (y in cx && whileTrue) {
      assert LastIteration(true, body, whileTrue, t2);
    } else {
      assert IterationGoesOn(true, body, t2);
      assert Iterations(true, body, n + 1, tr);
      assert LastIteration(true, body, whileTrue, []) && tr == tr + [];
    }
  }

  lemma LeavesByExit(g: Graph, h: Graph, body: Block, whileTrue: bool, cut: nat, cx: seq<nat>, bx: seq<nat>,
                     tr: seq<Loc>)
    requires |g.nodes| > 0 && Built(g, body, cut, cx, bx) && LeavesLoop(body, whileTrue, tr)
    requires forall y, t :: Path(h, cut, y, t) <==> Around(g, body, cut, y, t)
    ensures (!whileTrue && tr == []) || Hits(h, cut, LoopExits(|g.nodes| - 1, whileTrue, cx, bx), tr)
  {
    var ys := LoopExits(|g.nodes| - 1, whileTrue, cx, bx);
    var n: nat, t1, t2 :| Iterations(true, body, n, t1) && LastIteration(true, body, whileTrue, t2) && tr == t1 + t2;
    if !whileTrue && t2 == [] {
      assert tr == t1;
      if n > 0 {
        var u1, u2 :| Iterations(true, body, n - 1, u1) && IterationGoesOn(true, body, u2) && t1 == u1 + u2;
        BodyGoesOn(g, body, cut, cx, bx, u2);
        var y :| y in [|g.nodes| - 1] + cx && Path(g, cut, y, u2);
        assert Around(g, body, cut, y, tr);
        assert y in ys;
      }
    } else {
      assert BuiltAt(g, body, cut, cx, bx, t2);
      var y :| (y in bx || (whileTrue && y in cx)) && Path(g, cut, y, t2);
      assert Around(g, body, cut, y, tr);
      assert y in ys;
    }
  }

  /** The graph of a loop: the body attached below `n` and looped back. */
  ghost predicate LoopGraph(g1: Graph, g: Graph, h: Graph, n: nat, cut: nat, cx: seq<nat>) {
    && |g.nodes| > 0
    && LoopedBack(g, Graph(g.nodes, g.edges + EdgesTo([|g.nodes| - 1] + cx, cut)), cut, [|g.nodes| - 1] + cx)
    && Attached(g1, Graph(g.nodes, g.edges + EdgesTo([|g.nodes| - 1] + cx, cut)), h, n, cut)
  }

  /** Inside the loop graph, leaving the loop is reaching one of its exits. */
  lemma LeavingIsExiting(g: Graph, mid: Graph, body: Block, whileTrue: bool, cut: nat, cx: seq<nat>, bx: seq<nat>,
                         tr: seq<Loc>)
    requires |g.nodes| > 0 && Built(g, body, cut, cx, bx) && LoopedBack(g, mid, cut, [|g.nodes| - 1] + cx)
    ensures LeavesLoop(body, whileTrue, tr) <==>
            (!whileTrue && tr == []) || Hits(mid, cut, LoopExits(|g.nodes| - 1, whileTrue, cx, bx), tr)
  {
    var ks := [|g.nodes| - 1] + cx;
    forall t
      ensures GoesOnAt(g, body, cut, ks, t)
    {
      BodyGoesOn(g, body, cut, cx, bx, t);
    }
    forall y, t
      ensures Path(mid, cut, y, t) <==> Around(g, body, cut, y, t)
    {
      LoopPaths(g, mid, body, cut, ks, y, t);
    }
    if LeavesLoop(body, whileTrue, tr) {
      LeavesByExit(g, mid, body, whileTrue, cut, cx, bx, tr);
    }
    if y :| y in LoopExits(|g.nodes| - 1, whileTrue, cx, bx) && Path(mid, cut, y, tr) {
      ExitLeaves(g, body, whileTrue, cut, cx, bx, y, tr);
    }
    if !whileTrue && tr == [] {
      assert Iterations(true, body, 0, tr) && LastIteration(true, body, whileTrue, tr) && tr == tr + tr;
    }
  }

  lemma AfterLoop(g1: Graph, g: Graph, h: Graph, e: nat, n: nat, cut: nat, b: Block, i: nat, cx: seq<nat>, bx: seq<nat>,
                  tr: seq<Loc>)
    requires i < |b.stmts| && b.stmts[i].Loop? && e < cut
    requires LoopGraph(g1, g, h, n, cut, cx) && Built(g, b.stmts[i].body, cut, cx, bx)
    requires AllFrom(cx, cut) && AllFrom(bx, cut)
    ensures var w := b.stmts[i].whileTrue;
            Hits(h, e, (if w then [] else [n]) + LoopExits(|g.nodes| - 1, w, cx, bx), tr)
            <==> After(h, e, n, b, i, Normal, tr)
  {
    var body, w := b.stmts[i].body, b.stmts[i].whileTrue;
    var mid := Graph(g.nodes, g.edges + EdgesTo([|g.nodes| - 1] + cx, cut));
    var exits := LoopExits(|g.nodes| - 1, w, cx, bx);
    forall t
      ensures StmtExec(true, b.id, i, b.stmts[i], Normal, t) <==> (!w && t == []) || Hits(mid, cut, exits, t)
    {
      LeavingIsExiting(g, mid, body, w, cut, cx, bx, t);
      assert StmtExec(true, b.id, i, b.stmts[i], Normal, t) <==> LeavesLoop(body, w, t);
    }
    AttachedHits(g1, mid, h, n, cut, e, exits, tr);
    HitsConcat(h, e, if w then [] else [n], exits, tr);
    HitsOne(h, e, n, tr);
    assert tr + [] == tr;
    if t1, t2 :| Path(h, e, n, t1) && StmtExec(true, b.id, i, b.stmts[i], Normal, t2) && tr == t1 + t2 {
      assert t1 + [] == t1;
    }
    if !w && Path(h, e, n, tr) {
      assert StmtExec(true, b.id, i, b.stmts[i], Normal, []);
    }
  }

  lemma LoopTracks(g1: Graph, g: Graph, s': Cursor, e: nat, n: nat, cut: nat, b: Block, i: nat, cx: seq<nat>,
                   bx: seq<nat>, tr: seq<Loc>)
    requires i < |b.stmts| && b.stmts[i].Loop? && e < cut
    requires LoopGraph(g1, g, s'.g, n, cut, cx) && Built(g, b.stmts[i].body, cut, cx, bx)
    requires AllFrom(cx, cut) && AllFrom(bx, cut)
    requires var w := b.stmts[i].whileTrue; s'.prev == (if w then [] else [n]) + LoopExits(|g.nodes| - 1, w, cx, bx)
    ensures StmtBuiltAt(s', b, e, n, [], [], i, tr)
  {
    AfterLoop(g1, g, s'.g, e, n, cut, b, i, cx, bx, tr);
  }
}

/**
 The interprocedural store-destination pass: one Tarjan depth-first search over a call graph that
 may be cyclic, which leaves on every function the destinations stored to by everything it can call.
 */
module StoreDests {
  import opened Options

  /** Functions and pointer statements are compared by identity, so numbers stand for them. */
  type Func = nat

  datatype Dest =
    | ExternalPtr(id: nat)
    | MatrixPtr(id: nat, origin: Dest)
    | OtherPtr(id: nat)

  /** A statement of a body. A leaf carries what `get_store_destination` returns for it; a container
      (if, loop, offload) only forwards the visitor to its blocks, in order. */
  datatype Node =
    | Leaf(dests: seq<Dest>)
    | Call(callee: Func)
    | Container(children: seq<Node>)

  type Program = map<Func, seq<Node>>

  /******* Specification: calls, direct destinations, reachability *******/

  /** Destinations inside external arrays are not tracked. */
  predicate Tracked(d: Dest) {
    !d.ExternalPtr? && !(d.MatrixPtr? && d.origin.ExternalPtr?)
  }

  ghost function NodeCalls(n: Node): set<Func> {
    match n
    case Leaf(_) => {}
    case Call(g) => {g}
    case Container(ch) => Calls(ch)
  }

  ghost function Calls(ns: seq<Node>): set<Func> {
    if ns == [] then {} else Calls(ns[..|ns| - 1]) + NodeCalls(ns[|ns| - 1])
  }

  ghost function NodeDirect(n: Node): set<Dest> {
    match n
    case Leaf(ds) => set d | d in ds && Tracked(d)
    case Call(_) => {}
    case Container(ch) => Direct(ch)
  }

  ghost function Direct(ns: seq<Node>): set<Dest> {
    if ns == [] then {} else Direct(ns[..|ns| - 1]) + NodeDirect(ns[|ns| - 1])
  }

  /** Every function that is called has a body. */
  ghost predicate Closed(p: Program) {
    forall f, g :: f in p && g in Calls(p[f]) ==> g in p
  }

  ghost predicate ReachesIn(p: Program, n: nat, f: Func, g: Func) {
    if n == 0 then f == g
    else exists h :: f in p && h in Calls(p[f]) && ReachesIn(p, n - 1, h, g)
  }

  /** `f` can call `g` directly or indirectly, or is `g`. */
  ghost predicate Reaches(p: Program, f: Func, g: Func) {
    exists n: nat :: ReachesIn(p, n, f, g)
  }

  /** `d` is stored to, not counting callees, by something reachable from `f`. */
  ghost predicate Stores(p: Program, f: Func, d: Dest) {
    exists g :: Reaches(p, f, g) && g in p && d in Direct(p[g])
  }

  /** As `Stores`, also counting what was on the reachable functions before the pass. */
  ghost predicate StoresOrStale(p: Program, stale: map<Func, set<Dest>>, f: Func, d: Dest) {
    Stores(p, f, d) || exists g :: Reaches(p, f, g) && g in stale && d in stale[g]
  }

  lemma {:induction false} ReachesInTransitive(p: Program, m: nat, n: nat, f: Func, g: Func, h: Func)
    requires ReachesIn(p, m, f, g) && ReachesIn(p, n, g, h)
    ensures ReachesIn(p, m + n, f, h)
  {
    if m > 0 {
      var k :| f in p && k in Calls(p[f]) && ReachesIn(p, m - 1, k, g);
      ReachesInTransitive(p, m - 1, n, k, g, h);
    }
  }

  lemma ReachesTransitive(p: Program, f: Func, g: Func, h: Func)
    requires Reaches(p, f, g) && Reaches(p, g, h)
    ensures Reaches(p, f, h)
  {
    var m: nat :| ReachesIn(p, m, f, g);
    var n: nat :| ReachesIn(p, n, g, h);
    ReachesInTransitive(p, m, n, f, g, h);
  }

  lemma CallReaches(p: Program, f: Func, g: Func)
    requires f in p && g in Calls(p[f])
    ensures Reaches(p, f, g)
  {
    assert ReachesIn(p, 0, g, g);
    assert ReachesIn(p, 1, f, g);
  }

  lemma SelfReaches(p: Program, f: Func)
    ensures Reaches(p, f, f)
  {
    assert ReachesIn(p, 0, f, f);
  }

  lemma StoresOrStaleUp(p: Program, stale: map<Func, set<Dest>>, f: Func, g: Func, ds: set<Dest>)
    requires Reaches(p, f, g)
    requires forall d | d in ds :: StoresOrStale(p, stale, g, d)
    ensures forall d | d in ds :: StoresOrStale(p, stale, f, d)
  {
    forall d | d in ds
      ensures StoresOrStale(p, stale, f, d)
    {
      forall h | Reaches(p, g, h)
        ensures Reaches(p, f, h)
      {
        ReachesTransitive(p, f, g, h);
      }
    }
  }

  lemma DirectStores(p: Program, stale: map<Func, set<Dest>>, f: Func)
    requires f in p
    ensures forall d | d in Direct(p[f]) :: StoresOrStale(p, stale, f, d)
  {
    SelfReaches(p, f);
  }

  lemma {:induction false} PrefixWithin(ns: seq<Node>, i: nat)
    requires i < |ns|
    ensures NodeCalls(ns[i]) <= Calls(ns) && NodeDirect(ns[i]) <= Direct(ns)
    decreases |ns|
  {
    var last := |ns| - 1;
    if i < last {
      PrefixWithin(ns[..last], i);
    }
  }

  /******* Invariants of the search, over a snapshot of its data *******/

  datatype State = State(dfn: map<Func, nat>, low: map<Func, nat>, inStack: set<Func>, dests: map<Func, set<Dest>>)

  /** Finished: numbered and popped, so its component is complete. */
  ghost predicate Done(s: State, f: Func) {
    f in s.dfn && f !in s.inStack
  }

  ghost predicate Covers(p: Program, f: Func, ds: set<Dest>) {
    forall d | Stores(p, f, d) :: d in ds
  }

  ghost predicate WellNumbered(p: Program, s: State) {
    && s.inStack <= s.low.Keys == s.dfn.Keys <= p.Keys == s.dests.Keys
    && forall f | f in s.dfn :: s.dfn[f] < |s.dfn|
  }

  /** A finished function only calls finished functions and already holds its answer; any other
      still holds what it held before the pass. */
  ghost predicate DoneAt(p: Program, stale: map<Func, set<Dest>>, s: State, f: Func)
    requires WellNumbered(p, s)
  {
    if Done(s, f) then
      && (forall g | g in Calls(p[f]) :: Done(s, g))
      && Covers(p, f, s.dests[f])
      && (forall d | d in s.dests[f] :: StoresOrStale(p, stale, f, d))
      && Keeps(stale, s.dests, f)
    else
      f in p ==> f in stale && s.dests[f] == stale[f]
  }

  /** Nothing is taken from a function that it held before the pass. */
  ghost predicate Keeps(stale: map<Func, set<Dest>>, dests: map<Func, set<Dest>>, f: Func) {
    f in stale && f in dests && stale[f] <= dests[f]
  }

  ghost predicate Inv(p: Program, stale: map<Func, set<Dest>>, s: State) {
    Closed(p) && WellNumbered(p, s) && forall f :: DoneAt(p, stale, s, f)
  }

  /** A call seen below the function whose low link is `bound` and whose results are `rs`. */
  ghost predicate CallSeen(p: Program, s: State, bound: nat, rs: set<Dest>, g: Func) {
    && g in s.dfn
    && if g in s.inStack then s.dfn[g] >= bound else Covers(p, g, rs)
  }

  /** The number `v` belongs to a stacked function that `f` reaches. */
  ghost predicate Linked(p: Program, s: State, f: Func, v: nat) {
    exists g :: g in s.inStack && g in s.dfn && s.dfn[g] == v && Reaches(p, f, g)
  }

  /** `f` has been searched, but the root of its component has not returned. */
  ghost predicate Pending(p: Program, s: State, f: Func, bound: nat, rs: set<Dest>)
    requires WellNumbered(p, s) && f in s.inStack
  {
    && bound <= s.low[f] < s.dfn[f]
    && Linked(p, s, f, s.low[f])
    && (forall g | g in Calls(p[f]) :: CallSeen(p, s, bound, rs, g))
    && Direct(p[f]) <= rs
  }

  /** `g` entered the stack after `f`. */
  ghost predicate Above(s: State, f: Func, g: Func) {
    g in s.inStack && g in s.dfn && g != f && f in s.dfn && s.dfn[g] >= s.dfn[f]
  }

  /** What the visitor of `f` knows while it walks the body, with results `rs`. */
  ghost predicate Searching(p: Program, stale: map<Func, set<Dest>>, s: State, f: Func, rs: set<Dest>)
    requires WellNumbered(p, s)
  {
    && f in s.inStack
    && s.low[f] <= s.dfn[f]
    && Linked(p, s, f, s.low[f])
    && (forall g | Above(s, f, g) :: Pending(p, s, g, s.low[f], rs))
    && (forall d | d in rs :: StoresOrStale(p, stale, f, d))
  }

  /** What any part of the search leaves alone; `except` is the function being searched. */
  ghost predicate FrameAt(a: State, b: State, except: Option<Func>, f: Func) {
    && (f in a.dfn ==> f in b.dfn && b.dfn[f] == a.dfn[f] && (f in a.inStack <==> f in b.inStack))
    && (f in b.dfn && f !in a.dfn ==> b.dfn[f] >= |a.dfn|)
    && (f in a.low ==> f in b.low && (Some(f) != except ==> b.low[f] == a.low[f]))
    && (f in a.dfn && f in a.dests ==> f in b.dests && b.dests[f] == a.dests[f])
  }

  ghost predicate Frame(a: State, b: State, except: Option<Func>) {
    |a.dfn| <= |b.dfn| && a.dfn.Keys <= b.dfn.Keys && forall f :: FrameAt(a, b, except, f)
  }

  /** What a visitor may do to the search data and to its own results. */
  ghost predicate Progress(a: State, b: State, cur: Option<Func>, rs: set<Dest>, rs': set<Dest>) {
    && Frame(a, b, cur)
    && rs <= rs'
    && (cur.Some? && cur.value in a.low ==> cur.value in b.low && b.low[cur.value] <= a.low[cur.value])
  }

  /** The whole outcome of searching the unnumbered function `f`. */
  ghost predicate Searched(p: Program, stale: map<Func, set<Dest>>, a: State, b: State, f: Func, rs: set<Dest>) {
    && Inv(p, stale, b)
    && Frame(a, b, None)
    && f in b.dfn
    && b.dfn[f] == |a.dfn|
    && (forall d | d in rs :: StoresOrStale(p, stale, f, d))
    && (forall g | g in b.inStack && g !in a.dfn :: Pending(p, b, g, b.low[f], rs))
    && if f in b.inStack then b.low[f] < b.dfn[f]
       else b.inStack == a.inStack && b.low[f] == b.dfn[f] && Covers(p, f, rs)
  }

  lemma FrameTransitive(a: State, b: State, c: State, except: Option<Func>)
    requires Frame(a, b, except) && Frame(b, c, except)
    requires a.dfn.Keys <= a.dests.Keys
    ensures Frame(a, c, except)
  {
    forall f
      ensures FrameAt(a, c, except, f)
    {
      assert FrameAt(a, b, except, f) && FrameAt(b, c, except, f);
    }
  }

  lemma CallSeenStable(p: Program, a: State, b: State, except: Option<Func>, bound: nat, bound': nat,
                       rs: set<Dest>, rs': set<Dest>, g: Func)
    requires CallSeen(p, a, bound, rs, g)
    requires Frame(a, b, except) && bound' <= bound && rs <= rs'
    ensures CallSeen(p, b, bound', rs', g)
  {
    assert FrameAt(a, b, except, g);
  }

  lemma LinkedStable(p: Program, a: State, b: State, except: Option<Func>, f: Func, v: nat)
    requires Linked(p, a, f, v) && Frame(a, b, except)
    ensures Linked(p, b, f, v)
  {
    var g :| g in a.inStack && g in a.dfn && a.dfn[g] == v && Reaches(p, f, g);
    assert FrameAt(a, b, except, g);
  }

  lemma PendingStable(p: Program, a: State, b: State, except: Option<Func>, bound: nat, bound': nat,
                      rs: set<Dest>, rs': set<Dest>, f: Func)
    requires WellNumbered(p, a) && WellNumbered(p, b) && f in a.inStack
    requires Pending(p, a, f, bound, rs)
    requires Frame(a, b, except) && Some(f) != except && bound' <= bound && rs <= rs'
    ensures f in b.inStack && Pending(p, b, f, bound', rs')
  {
    assert FrameAt(a, b, except, f);
    LinkedStable(p, a, b, except, f, a.low[f]);
    forall g | g in Calls(p[f])
      ensures CallSeen(p, b, bound', rs', g)
    {
      CallSeenStable(p, a, b, except, bound, bound', rs, rs', g);
    }
  }

  /******* The component of a root *******/

  /** Everything above a root on the stack can reach the root, by following low links down. */
  lemma {:induction false} PendingReachesRoot(p: Program, s: State, root: Func, f: Func, rs: set<Dest>)
    requires WellNumbered(p, s) && root in s.inStack
    requires forall g | Above(s, root, g) :: Pending(p, s, g, s.dfn[root], rs)
    requires f == root || Above(s, root, f)
    ensures Reaches(p, f, root)
    decreases if f in s.dfn then s.dfn[f] else 0
  {
    if f == root {
      SelfReaches(p, root);
    } else {
      assert Pending(p, s, f, s.dfn[root], rs);
      var g :| g in s.inStack && g in s.dfn && s.dfn[g] == s.low[f] && Reaches(p, f, g);
      PendingReachesRoot(p, s, root, g, rs);
      ReachesTransitive(p, f, g, root);
    }
  }

  /** A walk that starts in a complete component stays in it until it enters finished functions. */
  lemma {:induction false} ComponentCovers(p: Program, s: State, root: Func, f: Func, rs: set<Dest>, n: nat, g: Func)
    requires WellNumbered(p, s) && root in s.inStack
    requires forall h | h == root || Above(s, root, h) :: Direct(p[h]) <= rs
    requires forall h, c | (h == root || Above(s, root, h)) && c in Calls(p[h]) :: CallSeen(p, s, s.dfn[root], rs, c)
    requires f == root || Above(s, root, f)
    requires ReachesIn(p, n, f, g) && g in p
    ensures Direct(p[g]) <= rs
    decreases n
  {
    if n > 0 {
      var h :| f in p && h in Calls(p[f]) && ReachesIn(p, n - 1, h, g);
      assert CallSeen(p, s, s.dfn[root], rs, h);
      if h in s.inStack {
        ComponentCovers(p, s, root, h, rs, n - 1, g);
      } else {
        assert forall d | d in Direct(p[g]) :: Stores(p, h, d);
      }
    }
  }

  /** When a root returns, its results are the exact answer for every member of its component. */
  lemma RootComplete(p: Program, stale: map<Func, set<Dest>>, s: State, root: Func, rs: set<Dest>, f: Func)
    requires WellNumbered(p, s) && Searching(p, stale, s, root, rs)
    requires s.low[root] == s.dfn[root]
    requires Direct(p[root]) <= rs
    requires forall g | g in Calls(p[root]) :: CallSeen(p, s, s.low[root], rs, g)
    requires f == root || Above(s, root, f)
    ensures Covers(p, f, rs)
    ensures forall d | d in rs :: StoresOrStale(p, stale, f, d)
    ensures forall g | g in Calls(p[f]) :: g in s.dfn && (g in s.inStack ==> s.dfn[g] >= s.dfn[root])
  {
    forall h | h == root || Above(s, root, h)
      ensures Direct(p[h]) <= rs
      ensures forall c | c in Calls(p[h]) :: CallSeen(p, s, s.dfn[root], rs, c)
    {
      if h != root {
        assert Pending(p, s, h, s.low[root], rs);
      }
    }
    PendingReachesRoot(p, s, root, f, rs);
    StoresOrStaleUp(p, stale, f, root, rs);
    forall d | Stores(p, f, d)
      ensures d in rs
    {
      var g :| Reaches(p, f, g) && g in p && d in Direct(p[g]);
      var n: nat :| ReachesIn(p, n, f, g);
      ComponentCovers(p, s, root, f, rs, n, g);
    }
  }

  /******* Lowering the low link of the function being searched *******/

  ghost function Lowered(s: State, f: Func, v: nat): State
    requires f in s.low
  {
    s.(low := s.low[f := if v < s.low[f] then v else s.low[f]])
  }

  lemma LoweredInv(p: Program, stale: map<Func, set<Dest>>, s: State, f: Func, v: nat)
    requires Inv(p, stale, s) && f in s.low
    ensures Inv(p, stale, Lowered(s, f, v)) && Frame(s, Lowered(s, f, v), Some(f))
  {
    var t := Lowered(s, f, v);
    forall g
      ensures DoneAt(p, stale, t, g)
    {
      assert DoneAt(p, stale, s, g);
    }
  }

  /** Lowering keeps the visitor's knowledge when everything pending is above the new low link. */
  lemma SearchingLowered(p: Program, stale: map<Func, set<Dest>>, s: State, f: Func, v: nat, rs: set<Dest>)
    requires Inv(p, stale, s) && f in s.inStack && s.low[f] <= s.dfn[f]
    requires Linked(p, s, f, s.low[f]) && (v < s.low[f] ==> Linked(p, s, f, v))
    requires forall d | d in rs :: StoresOrStale(p, stale, f, d)
    requires forall g | Above(s, f, g) :: Pending(p, s, g, Lowered(s, f, v).low[f], rs)
    ensures Inv(p, stale, Lowered(s, f, v))
    ensures Searching(p, stale, Lowered(s, f, v), f, rs)
  {
    var t := Lowered(s, f, v);
    LoweredInv(p, stale, s, f, v);
    LinkedStable(p, s, t, Some(f), f, t.low[f]);
    forall g | Above(t, f, g)
      ensures Pending(p, t, g, t.low[f], rs)
    {
      assert Above(s, f, g);
      PendingStable(p, s, t, Some(f), t.low[f], t.low[f], rs, rs, g);
    }
  }

  /** After a new callee has been searched, its pending functions join the caller's own. */
  lemma SearchedJoins(p: Program, stale: map<Func, set<Dest>>, a: State, b: State, f: Func, g: Func,
                      rs: set<Dest>, found: set<Dest>, h: Func)
    requires WellNumbered(p, a) && WellNumbered(p, b) && Searching(p, stale, a, f, rs)
    requires Searched(p, stale, a, b, g, found)
    requires Above(b, f, h)
    ensures f in b.low && Pending(p, b, h, Lowered(b, f, b.low[g]).low[f], rs + found)
  {
    assert FrameAt(a, b, None, f) && FrameAt(a, b, None, h);
    var bound := Lowered(b, f, b.low[g]).low[f];
    if h in a.dfn {
      assert Above(a, f, h);
      PendingStable(p, a, b, None, a.low[f], bound, rs, rs + found, h);
    } else {
      PendingStable(p, b, b, None, b.low[g], bound, found, rs + found, h);
    }
  }

  /** What the visitor of `f` may conclude after a call of `g`, in state `c` and with the results `now`. */
  ghost predicate Concludes(p: Program, stale: map<Func, set<Dest>>, s: State, c: State, f: Func, g: Func,
                            rs: set<Dest>, now: set<Dest>)
  {
    && Inv(p, stale, c) && Searching(p, stale, c, f, now)
    && CallSeen(p, c, c.low[f], now, g) && Progress(s, c, Some(f), rs, now)
  }

  /** The caller's view after it has searched a new callee and taken over its low link. */
  lemma AfterNewCallee(p: Program, stale: map<Func, set<Dest>>, a: State, b: State, f: Func, g: Func,
                       rs: set<Dest>, found: set<Dest>)
    requires Inv(p, stale, a) && Searching(p, stale, a, f, rs)
    requires g !in a.dfn && Searched(p, stale, a, b, g, found)
    requires g in Calls(p[f])
    ensures f in b.low && Concludes(p, stale, a, Lowered(b, f, b.low[g]), f, g, rs, rs + found)
  {
    NewCalleeSearching(p, stale, a, b, f, g, rs, found);
    var c := Lowered(b, f, b.low[g]);
    forall h
      ensures FrameAt(a, c, Some(f), h)
    {
      assert FrameAt(a, b, None, h);
    }
    assert FrameAt(a, b, None, f) && FrameAt(a, b, None, g);
  }

  lemma NewCalleeSearching(p: Program, stale: map<Func, set<Dest>>, a: State, b: State, f: Func, g: Func,
                           rs: set<Dest>, found: set<Dest>)
    requires Inv(p, stale, a) && Searching(p, stale, a, f, rs)
    requires g !in a.dfn && Searched(p, stale, a, b, g, found)
    requires g in Calls(p[f])
    ensures f in b.low && Inv(p, stale, Lowered(b, f, b.low[g]))
    ensures Searching(p, stale, Lowered(b, f, b.low[g]), f, rs + found)
  {
    assert FrameAt(a, b, None, f) && FrameAt(a, b, None, g);
    CallReaches(p, f, g);
    StoresOrStaleUp(p, stale, f, g, found);
    LinkedStable(p, a, b, None, f, a.low[f]);
    CalleeLinked(p, stale, a, b, f, g, found);
    forall h | Above(b, f, h)
      ensures Pending(p, b, h, Lowered(b, f, b.low[g]).low[f], rs + found)
    {
      SearchedJoins(p, stale, a, b, f, g, rs, found, h);
    }
    SearchingLowered(p, stale, b, f, b.low[g], rs + found);
  }

  /** The low link of a callee that stays on the stack is one for the caller. */
  lemma CalleeLinked(p: Program, stale: map<Func, set<Dest>>, a: State, b: State, f: Func, g: Func, found: set<Dest>)
    requires WellNumbered(p, a) && f in a.inStack && g !in a.dfn && Searched(p, stale, a, b, g, found)
    requires f in p && g in Calls(p[f])
    ensures g in b.inStack ==> Linked(p, b, f, b.low[g])
  {
    CallReaches(p, f, g);
    if g in b.inStack {
      assert Pending(p, b, g, b.low[g], found);
      var h :| h in b.inStack && h in b.dfn && b.dfn[h] == b.low[g] && Reaches(p, g, h);
      ReachesTransitive(p, f, g, h);
    }
  }

  /** More results that the searched function may store to keep the visitor's knowledge. */
  lemma SearchingMore(p: Program, stale: map<Func, set<Dest>>, s: State, f: Func, rs: set<Dest>, more: set<Dest>)
    requires WellNumbered(p, s) && Searching(p, stale, s, f, rs)
    requires forall d | d in more :: StoresOrStale(p, stale, f, d)
    ensures Searching(p, stale, s, f, rs + more)
  {
    forall g | Above(s, f, g)
      ensures Pending(p, s, g, s.low[f], rs + more)
    {
      PendingStable(p, s, s, None, s.low[f], s.low[f], rs, rs + more, g);
    }
  }

  /** The caller's view after a call back into the stack. */
  lemma AfterStackedCallee(p: Program, stale: map<Func, set<Dest>>, s: State, f: Func, g: Func, rs: set<Dest>)
    requires Inv(p, stale, s) && Searching(p, stale, s, f, rs)
    requires g in s.inStack && g in Calls(p[f])
    ensures Concludes(p, stale, s, Lowered(s, f, s.dfn[g]), f, g, rs, rs)
  {
    CallReaches(p, f, g);
    assert Linked(p, s, f, s.dfn[g]);
    var bound := Lowered(s, f, s.dfn[g]).low[f];
    forall h | Above(s, f, h)
      ensures Pending(p, s, h, bound, rs)
    {
      PendingStable(p, s, s, None, s.low[f], bound, rs, rs, h);
    }
    SearchingLowered(p, stale, s, f, s.dfn[g], rs);
    LoweredInv(p, stale, s, f, s.dfn[g]);
  }

  /** The caller's view after a call of a finished function. */
  lemma AfterFinishedCallee(p: Program, stale: map<Func, set<Dest>>, s: State, f: Func, g: Func, rs: set<Dest>)
    requires Inv(p, stale, s) && Searching(p, stale, s, f, rs)
    requires Done(s, g) && g in Calls(p[f])
    ensures Concludes(p, stale, s, s, f, g, rs, rs + s.dests[g])
  {
    assert DoneAt(p, stale, s, g);
    CallReaches(p, f, g);
    StoresOrStaleUp(p, stale, f, g, s.dests[g]);
    SearchingMore(p, stale, s, f, rs, s.dests[g]);
  }

  /** A function searched with an empty stack is the root of its component. */
  lemma RootRunFinishes(p: Program, stale: map<Func, set<Dest>>, a: State, b: State, g: Func, rs: set<Dest>)
    requires WellNumbered(p, a) && a.inStack == {} && Searched(p, stale, a, b, g, rs) && g !in a.dfn
    ensures b.inStack == {} && Done(b, g)
  {
    forall h | h in b.inStack
      ensures b.dfn[h] >= |a.dfn|
    {
      assert FrameAt(a, b, None, h);
    }
    assert g in b.inStack ==> Pending(p, b, g, b.low[g], rs);
  }

  /******* Entering a function and leaving a root *******/

  ghost function Entered(s: State, f: Func): State {
    s.(dfn := s.dfn[f := |s.dfn|], low := s.low[f := |s.dfn|], inStack := s.inStack + {f})
  }

  lemma EnteredInv(p: Program, stale: map<Func, set<Dest>>, s: State, f: Func)
    requires Inv(p, stale, s) && f in p && f !in s.dfn
    ensures Inv(p, stale, Entered(s, f))
    ensures Searching(p, stale, Entered(s, f), f, {})
  {
    var t := Entered(s, f);
    forall g
      ensures DoneAt(p, stale, t, g)
    {
      assert DoneAt(p, stale, s, g);
    }
    SelfReaches(p, f);
  }

  lemma EnteredFrame(a: State, b: State, f: Func)
    requires f !in a.dfn && f !in a.low && a.inStack <= a.dfn.Keys && Frame(Entered(a, f), b, Some(f))
    ensures Frame(a, b, None) && f in b.dfn && b.dfn[f] == |a.dfn|
  {
    var e := Entered(a, f);
    assert FrameAt(e, b, Some(f), f);
    forall g
      ensures FrameAt(a, b, None, g)
    {
      assert FrameAt(e, b, Some(f), g);
    }
  }

  /** `t` is `s` with the component of `root` popped and its results distributed. */
  ghost predicate PoppedAt(s: State, t: State, root: Func, rs: set<Dest>, f: Func)
    requires root in s.dfn && t.dests.Keys == s.dests.Keys
  {
    && (f in t.inStack <==> f in s.inStack && f in s.dfn && s.dfn[f] < s.dfn[root])
    && (f in s.dests ==>
          t.dests[f] == if f in s.inStack && f !in t.inStack then s.dests[f] + rs else s.dests[f])
  }

  ghost predicate Popped(s: State, t: State, root: Func, rs: set<Dest>)
    requires root in s.dfn
  {
    && t.dfn == s.dfn && t.low == s.low && t.dests.Keys == s.dests.Keys
    && forall f :: PoppedAt(s, t, root, rs, f)
  }

  /** The state of the popping loop before it reaches the root. */
  ghost predicate PoppingAt(s: State, t: State, root: Func, rs: set<Dest>, f: Func)
    requires root in s.dfn && t.dests.Keys == s.dests.Keys
  {
    && (f in t.inStack ==> f in s.inStack)
    && (f in s.inStack && f !in t.inStack ==> f in s.dfn && s.dfn[f] > s.dfn[root])
    && (f in s.dests ==>
          t.dests[f] == if f in s.inStack && f !in t.inStack then s.dests[f] + rs else s.dests[f])
  }

  lemma PoppedMember(p: Program, stale: map<Func, set<Dest>>, s: State, t: State, root: Func, rs: set<Dest>, f: Func)
    requires Inv(p, stale, s) && root in s.dfn && Popped(s, t, root, rs)
    requires f in s.inStack && f !in t.inStack
    requires Covers(p, f, rs)
    requires forall d | d in rs :: StoresOrStale(p, stale, f, d)
    ensures f in t.dests && Covers(p, f, t.dests[f])
    ensures forall d | d in t.dests[f] :: StoresOrStale(p, stale, f, d)
  {
    SelfReaches(p, f);
    assert DoneAt(p, stale, s, f) && PoppedAt(s, t, root, rs, f);
  }

  lemma PoppedDoneAt(p: Program, stale: map<Func, set<Dest>>, s: State, t: State, root: Func, rs: set<Dest>, f: Func)
    requires Inv(p, stale, s) && Searching(p, stale, s, root, rs)
    requires s.low[root] == s.dfn[root]
    requires Direct(p[root]) <= rs
    requires forall g | g in Calls(p[root]) :: CallSeen(p, s, s.low[root], rs, g)
    requires Popped(s, t, root, rs) && WellNumbered(p, t)
    ensures DoneAt(p, stale, t, f)
  {
    assert PoppedAt(s, t, root, rs, f) && DoneAt(p, stale, s, f);
    if Done(t, f) {
      if f in s.inStack {
        RootComplete(p, stale, s, root, rs, f);
        PoppedMember(p, stale, s, t, root, rs, f);
      }
      forall g | g in Calls(p[f])
        ensures Done(t, g)
      {
        assert PoppedAt(s, t, root, rs, g);
      }
    }
  }

  lemma PoppedInv(p: Program, stale: map<Func, set<Dest>>, s: State, t: State, root: Func, rs: set<Dest>)
    requires Inv(p, stale, s) && Searching(p, stale, s, root, rs)
    requires s.low[root] == s.dfn[root]
    requires Direct(p[root]) <= rs
    requires forall g | g in Calls(p[root]) :: CallSeen(p, s, s.low[root], rs, g)
    requires Popped(s, t, root, rs)
    ensures Inv(p, stale, t) && Covers(p, root, rs)
  {
    RootComplete(p, stale, s, root, rs, root);
    forall f
      ensures f in t.inStack ==> f in s.inStack
    {
      assert PoppedAt(s, t, root, rs, f);
    }
    forall f
      ensures DoneAt(p, stale, t, f)
    {
      PoppedDoneAt(p, stale, s, t, root, rs, f);
    }
  }

  lemma PoppedFrame(p: Program, a: State, s: State, t: State, root: Func, rs: set<Dest>)
    requires WellNumbered(p, a) && WellNumbered(p, s) && Frame(a, s, None)
    requires root in s.dfn && s.dfn[root] == |a.dfn| && Popped(s, t, root, rs)
    ensures Frame(a, t, None) && t.inStack == a.inStack
  {
    forall f
      ensures FrameAt(a, t, None, f) && (f in t.inStack <==> f in a.inStack)
    {
      assert FrameAt(a, s, None, f) && PoppedAt(s, t, root, rs, f);
    }
  }

  /******* The pass *******/

  ghost predicate Increasing(dfn: map<Func, nat>, stack: seq<Func>) {
    stack != [] ==>
      var top := stack[|stack| - 1];
      && (forall f | f in stack[..|stack| - 1] :: f in dfn && top in dfn && dfn[f] < dfn[top])
      && top in dfn
      && Increasing(dfn, stack[..|stack| - 1])
  }

  lemma {:induction false} IncreasingExtends(a: map<Func, nat>, b: map<Func, nat>, stack: seq<Func>)
    requires Increasing(a, stack)
    requires forall f | f in a :: f in b && b[f] == a[f]
    ensures Increasing(b, stack)
  {
    if stack != [] {
      IncreasingExtends(a, b, stack[..|stack| - 1]);
    }
  }

  lemma TopIsHighest(dfn: map<Func, nat>, stack: seq<Func>, inStack: set<Func>)
    requires stack != [] && Increasing(dfn, stack)
    requires forall f :: f in inStack <==> f in stack
    ensures var top := stack[|stack| - 1];
            forall f | f in inStack && f != top :: f in dfn && top in dfn && dfn[f] < dfn[top]
    ensures forall f :: f in stack[..|stack| - 1] <==> f in inStack && f != stack[|stack| - 1]
  {
    var top := stack[|stack| - 1];
    assert stack == stack[..|stack| - 1] + [top];
  }

  ghost function Topless(s: State, top: Func, rs: set<Dest>): State
    requires top in s.dests
  {
    s.(inStack := s.inStack - {top}, dests := s.dests[top := s.dests[top] + rs])
  }

  lemma PoppingStep(s: State, before: State, after: State, root: Func, top: Func, rs: set<Dest>)
    requires root in s.dfn && before.dests.Keys == s.dests.Keys && before.dfn == s.dfn && before.low == s.low
    requires forall f :: PoppingAt(s, before, root, rs, f)
    requires top in before.inStack && top in before.dests && root in before.inStack
    requires forall f | f in before.inStack && f != top :: f in s.dfn && top in s.dfn && s.dfn[f] < s.dfn[top]
    requires after == Topless(before, top, rs)
    ensures top == root ==> Popped(s, after, root, rs)
    ensures top != root ==> forall f :: PoppingAt(s, after, root, rs, f)
  {
    forall f
      ensures if top == root then PoppedAt(s, after, root, rs, f) else PoppingAt(s, after, root, rs, f)
    {
      assert PoppingAt(s, before, root, rs, f);
    }
  }

  /** The search data shared by all visitors, together with the `store_dests` of every function. */
  class TarjanData {
    const prog: Program
    ghost const stale: map<Func, set<Dest>>
    var funcDfn: map<Func, nat>
    var funcLow: map<Func, nat>
    var funcInStack: set<Func>
    var funcStack: seq<Func>
    var storeDests: map<Func, set<Dest>>

    ghost function View(): State
      reads this
    {
      State(funcDfn, funcLow, funcInStack, storeDests)
    }

    /** The stack lists the stacked functions in the order they were numbered. */
    ghost predicate StackOrdered()
      reads this
    {
      && (forall f :: f in funcInStack <==> f in funcStack)
      && Increasing(funcDfn, funcStack)
    }

    ghost predicate Valid()
      reads this
    {
      Inv(prog, stale, View()) && StackOrdered()
    }

    constructor (prog: Program, storeDests: map<Func, set<Dest>>)
      requires Closed(prog) && storeDests.Keys == prog.Keys
      ensures this.prog == prog && stale == storeDests && this.storeDests == storeDests
      ensures Valid() && funcStack == [] && funcDfn == map[]
    {
      this.prog, stale := prog, storeDests;
      funcDfn, funcLow, funcInStack, funcStack := map[], map[], {}, [];
      this.storeDests := storeDests;
    }

    method Lower(f: Func, v: nat)
      requires f in funcLow && StackOrdered()
      modifies `funcLow
      ensures View() == Lowered(old(View()), f, v) && StackOrdered()
    {
      funcLow := funcLow[f := if v < funcLow[f] then v else funcLow[f]];
    }

    /** Numbers a function and pushes it. */
    method Enter(func: Func)
      requires Valid() && func !in funcDfn
      modifies `funcDfn, `funcLow, `funcInStack, `funcStack
      ensures View() == Entered(old(View()), func) && StackOrdered()
    {
      funcLow := funcLow[func := |funcDfn|];
      funcDfn := funcDfn[func := |funcDfn|];
      funcInStack := funcInStack + {func};
      funcStack := funcStack + [func];
      IncreasingExtends(old(funcDfn), funcDfn, old(funcStack));
      assert funcStack[..|funcStack| - 1] == old(funcStack);
    }

    /** The popping loop of a root. */
    method PopComponent(func: Func, results: set<Dest>)
      requires WellNumbered(prog, View()) && StackOrdered() && func in funcInStack
      modifies `funcInStack, `funcStack, `storeDests
      ensures Popped(old(View()), View(), func, results) && StackOrdered()
    {
      ghost var s := View();
      while true
        invariant StackOrdered() && func in funcInStack
        invariant storeDests.Keys == s.dests.Keys && funcInStack <= s.inStack
        invariant forall f :: PoppingAt(s, View(), func, results, f)
        decreases |funcStack|
      {
        ghost var before := View();
        var top := PopTop(results);
        PoppingStep(s, before, View(), func, top, results);
        if top == func {
          break;
        }
      }
    }

    /** The top of the stack is popped and gets the results. */
    method PopTop(results: set<Dest>) returns (top: Func)
      requires StackOrdered() && funcInStack != {} && funcInStack <= storeDests.Keys
      modifies `funcInStack, `funcStack, `storeDests
      ensures StackOrdered() && |funcStack| < old(|funcStack|) && top in old(funcInStack)
      ensures top in old(storeDests) && View() == Topless(old(View()), top, results)
      ensures forall f | f in old(funcInStack) && f != top ::
                f in funcDfn && top in funcDfn && funcDfn[f] < funcDfn[top]
    {
      EmptyStack(funcStack, funcInStack);
      var n := |funcStack| - 1;
      top := funcStack[n];
      TopIsHighest(funcDfn, funcStack, funcInStack);
      funcStack := funcStack[..n];
      funcInStack := funcInStack - {top};
      storeDests := storeDests[top := storeDests[top] + results];
    }
  }

  /** What the visitor of `func` has established when it has walked the whole body. */
  ghost predicate Walked(p: Program, stale: map<Func, set<Dest>>, s0: State, s1: State, func: Func, rs: set<Dest>) {
    && Inv(p, stale, s1) && Frame(Entered(s0, func), s1, Some(func))
    && Searching(p, stale, s1, func, rs)
    && (forall g | g in Calls(p[func]) :: CallSeen(p, s1, s1.low[func], rs, g))
    && Direct(p[func]) <= rs
  }

  lemma LeaveRoot(p: Program, stale: map<Func, set<Dest>>, s0: State, s1: State, s2: State, func: Func, rs: set<Dest>)
    requires Inv(p, stale, s0) && func !in s0.dfn && Walked(p, stale, s0, s1, func, rs)
    requires s1.low[func] == s1.dfn[func] && Popped(s1, s2, func, rs)
    ensures Searched(p, stale, s0, s2, func, rs)
  {
    EnteredFrame(s0, s1, func);
    PoppedInv(p, stale, s1, s2, func, rs);
    PoppedFrame(p, s0, s1, s2, func, rs);
  }

  lemma LeaveInner(p: Program, stale: map<Func, set<Dest>>, s0: State, s1: State, func: Func, rs: set<Dest>)
    requires Inv(p, stale, s0) && func !in s0.dfn && Walked(p, stale, s0, s1, func, rs)
    requires s1.low[func] != s1.dfn[func]
    ensures Searched(p, stale, s0, s1, func, rs)
  {
    EnteredFrame(s0, s1, func);
    forall g | g in s1.inStack && g !in s0.dfn
      ensures Pending(p, s1, g, s1.low[func], rs)
    {
      assert FrameAt(s0, s1, None, g);
      assert g == func || Above(s1, func, g);
    }
  }

  /** Searches an unnumbered function and, when it is the root of its component, pops the component
      and adds the results to the destinations of each member. */
  method Run(func: Func, data: TarjanData) returns (results: set<Dest>)
    requires data.Valid() && func in data.prog && func !in data.funcDfn
    modifies data
    ensures data.Valid() && Searched(data.prog, data.stale, old(data.View()), data.View(), func, results)
    decreases data.prog.Keys - data.funcDfn.Keys, 0
  {
    ghost var s0 := data.View();
    data.Enter(func);
    EnteredInv(data.prog, data.stale, s0, func);
    var searcher := new Searcher(Some(func), data);
    searcher.VisitBlock(data.prog[func]);
    results := searcher.results;
    ghost var s1 := data.View();
    assert Walked(data.prog, data.stale, s0, s1, func, results);
    if data.funcLow[func] == data.funcDfn[func] {
      data.PopComponent(func, results);
      LeaveRoot(data.prog, data.stale, s0, s1, data.View(), func, results);
    } else {
      LeaveInner(data.prog, data.stale, s0, s1, func, results);
    }
  }

  /** The calls and stores of the part of a body walked so far are accounted for. */
  ghost predicate SeenIn(p: Program, s: State, cur: Option<Func>, rs: set<Dest>, calls: set<Func>, direct: set<Dest>) {
    match cur
    case None => forall g | g in calls :: Done(s, g)
    case Some(f) =>
      && f in s.low
      && (forall g | g in calls :: CallSeen(p, s, s.low[f], rs, g))
      && direct <= rs
  }

  /** What was seen before a step is still seen after it. */
  lemma SeenStable(p: Program, a: State, b: State, cur: Option<Func>, rs: set<Dest>, rs': set<Dest>,
                   calls: set<Func>, direct: set<Dest>)
    requires SeenIn(p, a, cur, rs, calls, direct) && Progress(a, b, cur, rs, rs')
    ensures SeenIn(p, b, cur, rs', calls, direct)
  {
    forall g | g in calls
      ensures if cur.None? then Done(b, g) else CallSeen(p, b, b.low[cur.value], rs', g)
    {
      assert FrameAt(a, b, cur, g);
      if cur.Some? {
        CallSeenStable(p, a, b, cur, a.low[cur.value], b.low[cur.value], rs, rs', g);
      }
    }
  }

  /** One more statement of a body is seen. */
  lemma SeenNext(p: Program, a: State, b: State, cur: Option<Func>, rs: set<Dest>, rs': set<Dest>, ns: seq<Node>,
                 i: nat)
    requires i < |ns| && SeenIn(p, a, cur, rs, Calls(ns[..i]), Direct(ns[..i])) && Progress(a, b, cur, rs, rs')
    requires SeenIn(p, b, cur, rs', NodeCalls(ns[i]), NodeDirect(ns[i]))
    ensures SeenIn(p, b, cur, rs', Calls(ns[..i + 1]), Direct(ns[..i + 1]))
  {
    assert ns[..i + 1][..i] == ns[..i];
    SeenStable(p, a, b, cur, rs, rs', Calls(ns[..i]), Direct(ns[..i]));
  }

  /** The visitor of one body; `currentFunc` is `None` for the root IR. */
  class Searcher {
    var results: set<Dest>
    const currentFunc: Option<Func>
    const data: TarjanData

    constructor (currentFunc: Option<Func>, data: TarjanData)
      ensures this.currentFunc == currentFunc && this.data == data && results == {}
    {
      this.currentFunc, this.data := currentFunc, data;
      results := {};
    }

    ghost predicate Valid()
      reads this, data
    {
      && data.Valid()
      && match currentFunc
         case None => data.funcInStack == {}
         case Some(f) => Searching(data.prog, data.stale, data.View(), f, results)
    }

    ghost predicate Seen(calls: set<Func>, direct: set<Dest>)
      reads this, data
    {
      SeenIn(data.prog, data.View(), currentFunc, results, calls, direct)
    }

    /** The part to be walked belongs to the body of the current function. */
    ghost predicate Within(calls: set<Func>, direct: set<Dest>)
      reads this
    {
      && calls <= data.prog.Keys
      && (currentFunc.Some? ==>
            && currentFunc.value in data.prog
            && calls <= Calls(data.prog[currentFunc.value])
            && direct <= Direct(data.prog[currentFunc.value]))
    }

    ghost predicate Since(s: State, rs: set<Dest>)
      reads this, data
    {
      Progress(s, data.View(), currentFunc, rs, results)
    }

    /** `visit(Block)`. */
    method VisitBlock(ns: seq<Node>)
      requires Valid() && Within(Calls(ns), Direct(ns))
      modifies this, data
      ensures Valid() && Since(old(data.View()), old(results)) && Seen(Calls(ns), Direct(ns))
      decreases data.prog.Keys - data.funcDfn.Keys, 2, ns
    {
      for i := 0 to |ns|
        invariant Valid() && Since(old(data.View()), old(results))
        invariant Seen(Calls(ns[..i]), Direct(ns[..i]))
      {
        ghost var before, rs := data.View(), results;
        PrefixWithin(ns, i);
        Visit(ns[i]);
        SeenNext(data.prog, before, data.View(), currentFunc, rs, results, ns, i);
        FrameTransitive(old(data.View()), before, data.View(), currentFunc);
      }
      assert ns[..|ns|] == ns;
    }

    /** Dispatch on one statement. */
    method Visit(n: Node)
      requires Valid() && Within(NodeCalls(n), NodeDirect(n))
      modifies this, data
      ensures Valid() && Since(old(data.View()), old(results)) && Seen(NodeCalls(n), NodeDirect(n))
      decreases data.prog.Keys - data.funcDfn.Keys, 2, n
    {
      match n {
        case Leaf(ds) => VisitStmt(ds);
        case Call(g) => VisitCall(g);
        case Container(ch) => VisitBlock(ch);
      }
    }

    /** `visit(Stmt)`: keeps the tracked destinations. */
    method VisitStmt(ds: seq<Dest>)
      requires Valid() && Within({}, NodeDirect(Leaf(ds)))
      modifies this
      ensures Valid() && Since(old(data.View()), old(results)) && Seen({}, NodeDirect(Leaf(ds)))
    {
      if currentFunc.None? {
        return;
      }
      for i := 0 to |ds|
        invariant results == old(results) + set d | d in ds[..i] && Tracked(d)
      {
        assert ds[..i + 1] == ds[..i] + [ds[i]];
        if ds[i].ExternalPtr? {
          continue;
        }
        if ds[i].MatrixPtr? {
          if ds[i].origin.ExternalPtr? {
            continue;
          }
        }
        results := results + {ds[i]};
      }
      assert ds[..|ds|] == ds;
      DirectStores(data.prog, data.stale, currentFunc.value);
      SearchingMore(data.prog, data.stale, data.View(), currentFunc.value, old(results), NodeDirect(Leaf(ds)));
    }

    /** `visit(FuncCallStmt)`. */
    method VisitCall(g: Func)
      requires Valid() && Within({g}, {})
      modifies this, data
      ensures Valid() && Since(old(data.View()), old(results)) && Seen({g}, {})
      decreases data.prog.Keys - data.funcDfn.Keys, 1, 3
    {
      if currentFunc.None? {
        if g !in data.funcDfn {
          RootCall(g);
        } else {
          assert DoneAt(data.prog, data.stale, data.View(), g);
        }
      } else {
        FunctionCall(g);
      }
    }

    /** The call is in a function. */
    method FunctionCall(g: Func)
      requires Valid() && currentFunc.Some? && Within({g}, {})
      modifies this, data
      ensures Valid() && Since(old(data.View()), old(results)) && Seen({g}, {})
      decreases data.prog.Keys - data.funcDfn.Keys, 1, 2
    {
      if g !in data.funcDfn {
        NewCallee(g);
      } else if g in data.funcInStack {
        StackedCallee(g);
      } else {
        FinishedCallee(g);
      }
    }

    /** A conclusion about the current state is what the visitor needs to go on. */
    lemma Concluded(s: State, g: Func, rs: set<Dest>)
      requires currentFunc.Some? && data.StackOrdered()
      requires Concludes(data.prog, data.stale, s, data.View(), currentFunc.value, g, rs, results)
      ensures Valid() && Since(s, rs) && Seen({g}, {})
    {
    }

    method StackedCallee(g: Func)
      requires Valid() && currentFunc.Some? && Within({g}, {}) && g in data.funcInStack
      modifies data
      ensures Valid() && Since(old(data.View()), results) && Seen({g}, {})
    {
      ghost var s := data.View();
      AfterStackedCallee(data.prog, data.stale, s, currentFunc.value, g, results);
      data.Lower(currentFunc.value, data.funcDfn[g]);
      Concluded(s, g, results);
    }

    method FinishedCallee(g: Func)
      requires Valid() && currentFunc.Some? && Within({g}, {}) && g in data.funcDfn && g !in data.funcInStack
      modifies this
      ensures Valid() && Since(data.View(), old(results)) && Seen({g}, {})
    {
      ghost var rs := results;
      AfterFinishedCallee(data.prog, data.stale, data.View(), currentFunc.value, g, rs);
      results := results + data.storeDests[g];
      Concluded(data.View(), g, rs);
    }

    /** The root IR searches a new callee and keeps no results. */
    method RootCall(g: Func)
      requires Valid() && currentFunc.None? && g in data.prog && g !in data.funcDfn
      modifies data
      ensures Valid() && Since(old(data.View()), results) && Done(data.View(), g)
      decreases data.prog.Keys - data.funcDfn.Keys, 1, 0
    {
      var found := Run(g, data);
      RootRunFinishes(data.prog, data.stale, old(data.View()), data.View(), g, found);
    }

    method SearchCallee(f: Func, g: Func) returns (found: set<Dest>)
      requires Valid() && currentFunc == Some(f) && Within({g}, {}) && g !in data.funcDfn
      modifies data
      ensures data.StackOrdered() && f in data.funcLow && g in data.funcLow
      ensures Concludes(data.prog, data.stale, old(data.View()), Lowered(data.View(), f, data.funcLow[g]), f, g,
                        results, results + found)
      decreases data.prog.Keys - data.funcDfn.Keys, 1, 0
    {
      ghost var s0 := data.View();
      found := Run(g, data);
      AfterNewCallee(data.prog, data.stale, s0, data.View(), f, g, results, found);
    }

    /** A function searches a new callee, merges its results and takes over its low link. */
    method NewCallee(g: Func)
      requires Valid() && currentFunc.Some? && Within({g}, {}) && g !in data.funcDfn
      modifies this, data
      ensures Valid() && Since(old(data.View()), old(results)) && Seen({g}, {})
      decreases data.prog.Keys - data.funcDfn.Keys, 1, 1
    {
      ghost var s := data.View();
      var f := currentFunc.value;
      var found := SearchCallee(f, g);
      TakeOver(f, g, found, s);
    }

    method TakeOver(f: Func, g: Func, found: set<Dest>, ghost s: State)
      requires currentFunc == Some(f) && data.StackOrdered() && f in data.funcLow && g in data.funcLow
      requires Concludes(data.prog, data.stale, s, Lowered(data.View(), f, data.funcLow[g]), f, g, results,
                         results + found)
      modifies this, data
      ensures Valid() && Since(s, old(results)) && Seen({g}, {})
    {
      results := results + found;
      data.Lower(f, data.funcLow[g]);
      Concluded(s, g, old(results));
    }
  }

  /******* The whole pass *******/

  /** Every numbered function is finished when the pass ends, so what the root calls is finished too. */
  lemma {:induction false} DoneReaches(p: Program, stale: map<Func, set<Dest>>, s: State, f: Func, n: nat, g: Func)
    requires Inv(p, stale, s) && Done(s, f) && ReachesIn(p, n, f, g)
    ensures Done(s, g)
    decreases n
  {
    if n > 0 {
      var h :| f in p && h in Calls(p[f]) && ReachesIn(p, n - 1, h, g);
      assert DoneAt(p, stale, s, f);
      DoneReaches(p, stale, s, h, n - 1, g);
    }
  }

  lemma EmptyStack(stack: seq<Func>, inStack: set<Func>)
    requires forall f :: f in inStack <==> f in stack
    ensures inStack == {} <==> stack == []
  {
    if stack != [] {
      assert stack[0] in inStack;
    }
  }

  /** `f` can be called from the root IR. */
  ghost predicate RootReaches(p: Program, root: seq<Node>, f: Func) {
    exists g :: g in Calls(root) && Reaches(p, g, f)
  }

  /** The pass, from the `store_dests` found on the functions. Every function reachable from the
      root ends up with at least what it and its callees store to, and with nothing else except
      destinations that were already on some reachable function. No function loses a destination. */
  method GatherFuncStoreDests(root: seq<Node>, prog: Program, before: map<Func, set<Dest>>)
    returns (after: map<Func, set<Dest>>, stackLeft: seq<Func>)
    requires Closed(prog) && Calls(root) <= prog.Keys == before.Keys
    ensures after.Keys == prog.Keys && stackLeft == []
    ensures forall f | RootReaches(prog, root, f) :: f in after
    ensures forall f, d | RootReaches(prog, root, f) && Stores(prog, f, d) :: f in after && d in after[f]
    ensures forall f, d | RootReaches(prog, root, f) && f in after && d in after[f] :: StoresOrStale(prog, before, f, d)
    ensures forall f, d | f in after && d in after[f] :: d in before[f] || StoresOrStale(prog, before, f, d)
    ensures forall f | f in prog :: Keeps(before, after, f)
  {
    var data := new TarjanData(prog, before);
    var searcher := new Searcher(None, data);
    searcher.VisitBlock(root);
    after, stackLeft := data.storeDests, data.funcStack;
    ghost var s := data.View();
    EmptyStack(data.funcStack, data.funcInStack);
    forall f | RootReaches(prog, root, f)
      ensures Done(s, f) && DoneAt(prog, before, s, f)
    {
      var g :| g in Calls(root) && Reaches(prog, g, f);
      var n: nat :| ReachesIn(prog, n, g, f);
      DoneReaches(prog, before, s, g, n, f);
    }
    forall f, d | f in after && d in after[f]
      ensures d in before[f] || StoresOrStale(prog, before, f, d)
    {
      assert DoneAt(prog, before, s, f);
    }
    forall f | f in prog
      ensures Keeps(before, after, f)
    {
      assert DoneAt(prog, before, s, f);
    }
  }

  /** What the functions hold is what they store to, themselves or by what they call. */
  ghost predicate Exact(p: Program, root: seq<Node>, dests: map<Func, set<Dest>>) {
    forall f, d | RootReaches(p, root, f) :: f in dests && (d in dests[f] <==> Stores(p, f, d))
  }

  /** They hold nothing else, as fresh functions do, or those of an earlier run over the same call graph. */
  ghost predicate NothingElse(p: Program, root: seq<Node>, dests: map<Func, set<Dest>>) {
    forall f, d | RootReaches(p, root, f) && f in dests && d in dests[f] :: Stores(p, f, d)
  }

  /** The outcome is exact if and only if the reachable functions hold nothing else before the pass. */
  method GatherExactly(root: seq<Node>, prog: Program, before: map<Func, set<Dest>>)
    returns (after: map<Func, set<Dest>>)
    requires Closed(prog) && Calls(root) <= prog.Keys == before.Keys
    ensures after.Keys == prog.Keys
    ensures Exact(prog, root, after) <==> NothingElse(prog, root, before)
  {
    var left;
    after, left := GatherFuncStoreDests(root, prog, before);
    if NothingElse(prog, root, before) {
      forall f, d | RootReaches(prog, root, f) && f in after && d in after[f]
        ensures Stores(prog, f, d)
      {
        NotStale(prog, root, before, f, d);
      }
    } else {
      var f, d :| RootReaches(prog, root, f) && f in before && d in before[f] && !Stores(prog, f, d);
      assert Keeps(before, after, f);
    }
  }

  /** A function that stores nothing, but held `d` before, as it does if an earlier body stored to `d`: the
      pass leaves `d` with it. */
  method GatherStale(d: Dest) returns (after: map<Func, set<Dest>>)
    ensures after.Keys == {0} && d in after[0]
    ensures var prog: Program := map[0 := []]; RootReaches(prog, [Call(0)], 0) && !Stores(prog, 0, d)
    ensures !NothingElse(map[0 := []], [Call(0)], map[0 := {d}]) && !Exact(map[0 := []], [Call(0)], after)
  {
    var prog: Program, before := map[0 := []], map[0 := {d}];
    var root := [Call(0)];
    EmptyStores(prog, d);
    assert Calls(root) == {0} by {
      assert root[..0] == [];
    }
    assert ReachesIn(prog, 0, 0, 0);
    assert RootReaches(prog, root, 0);
    var left;
    after, left := GatherFuncStoreDests(root, prog, before);
    assert Keeps(before, after, 0);
  }

  lemma EmptyStores(p: Program, d: Dest)
    requires p == map[0 := []]
    ensures !Stores(p, 0, d)
  {
    forall g | Reaches(p, 0, g)
      ensures g == 0
    {
      var n: nat :| ReachesIn(p, n, 0, g);
    }
  }

  lemma NotStale(p: Program, root: seq<Node>, stale: map<Func, set<Dest>>, f: Func, d: Dest)
    requires NothingElse(p, root, stale) && RootReaches(p, root, f) && StoresOrStale(p, stale, f, d)
    ensures Stores(p, f, d)
  {
    if !Stores(p, f, d) {
      var g :| Reaches(p, f, g) && g in stale && d in stale[g];
      var r :| r in Calls(root) && Reaches(p, r, f);
      ReachesTransitive(p, r, f, g);
      assert Stores(p, g, d);
      var h :| Reaches(p, g, h) && h in p && d in Direct(p[h]);
      ReachesTransitive(p, f, g, h);
    }
  }
}

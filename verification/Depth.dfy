/**
 * The depth limit (depth.go): a memo filled as the depth-first search leaves a
 * node holds the node count of the longest forward path from it.
 */
module Depth {
  import opened Graphs
  import D = Dfs

  const MAX_PATH_DEPTH: nat := 2000

  type Memo = map<Node, nat>

  ghost predicate PathFrom(F: Succ, p: seq<Node>, n: Node) {
    Path(F, p) && p[0] == n
  }

  // k is the node count of the longest path from n.
  ghost predicate Longest(F: Succ, n: Node, k: nat) {
    && (exists p :: PathFrom(F, p, n) && |p| == k)
    && (forall p :: PathFrom(F, p, n) ==> |p| <= k)
  }

  function Look(memo: Memo, n: Node): nat {
    if n in memo then memo[n] else 0
  }

  // One more than the longest among the forward targets, and at least one.
  function Best(n: Node, outs: seq<Node>, back: set<Edge>, memo: Memo): nat {
    if outs == [] then 1
    else
      var rest := Best(n, outs[1..], back, memo);
      if Edge(n, outs[0]) !in back && 1 + Look(memo, outs[0]) > rest then 1 + Look(memo, outs[0]) else rest
  }

  function DepthVisitor(G: Succ, back: set<Edge>): D.Visitor<Memo> {
    D.Visitor(
      (memo: Memo, _: Node) => (memo, true),
      (memo: Memo, from: Node, to: Node, _: bool) => (memo, Edge(from, to) !in back),
      (memo: Memo, n: Node) => memo[n := Best(n, Outs(G, n), back, memo)])
  }

  lemma {:induction false} BestBounds(n: Node, outs: seq<Node>, back: set<Edge>, memo: Memo)
    ensures Best(n, outs, back, memo) >= 1
    ensures forall m :: m in outs && Edge(n, m) !in back ==> 1 + Look(memo, m) <= Best(n, outs, back, memo)
    ensures Best(n, outs, back, memo) > 1 ==>
            exists m :: m in outs && Edge(n, m) !in back && Best(n, outs, back, memo) == 1 + Look(memo, m)
  {
    if outs != [] {
      BestBounds(n, outs[1..], back, memo);
      assert forall m :: m in outs <==> m == outs[0] || m in outs[1..];
      assert outs[0] in outs;
      if Best(n, outs, back, memo) > 1 && Best(n, outs, back, memo) == Best(n, outs[1..], back, memo) {
        var m :| m in outs[1..] && Edge(n, m) !in back && Best(n, outs[1..], back, memo) == 1 + Look(memo, m);
        assert m in outs;
      }
    }
  }

  lemma LongestGrows(F: Succ, n: Node, m: Node, k: nat)
    requires HasEdge(F, n, m) && Longest(F, m, k)
    ensures exists p :: PathFrom(F, p, n) && |p| == k + 1
  {
    var q :| PathFrom(F, q, m) && |q| == k;
    assert ([n] + q)[1..] == q;
    assert PathFrom(F, [n] + q, n);
  }

  // The best over the targets is the longest from the node.
  lemma BestIsLongest(G: Succ, back: set<Edge>, n: Node, memo: Memo)
    requires forall m :: HasEdge(Forward(G, back), n, m) ==> m in memo && Longest(Forward(G, back), m, memo[m])
    ensures Longest(Forward(G, back), n, Best(n, Outs(G, n), back, memo))
  {
    hide Longest, HasEdge, PathFrom;
    var F := Forward(G, back);
    var best := Best(n, Outs(G, n), back, memo);
    BestBounds(n, Outs(G, n), back, memo);
    OutsForward(G, back, n);
    assert exists p :: PathFrom(F, p, n) && |p| == best by {
      if best > 1 {
        var m :| m in Outs(G, n) && Edge(n, m) !in back && best == 1 + Look(memo, m);
        LongestGrows(F, n, m, memo[m]);
      } else {
        Alone(F, n);
      }
    }
    forall p | PathFrom(F, p, n)
      ensures |p| <= best
    {
      PathNotLonger(F, n, p, memo, best);
    }
    LongestIf(F, n, best);
  }

  lemma LongestIf(F: Succ, n: Node, k: nat)
    requires exists p :: PathFrom(F, p, n) && |p| == k
    requires forall p :: PathFrom(F, p, n) ==> |p| <= k
    ensures Longest(F, n, k)
  {
  }

  lemma Alone(F: Succ, n: Node)
    ensures exists p :: PathFrom(F, p, n) && |p| == 1
  {
    assert PathFrom(F, [n], n);
  }

  lemma OutsForward(G: Succ, back: set<Edge>, n: Node)
    ensures forall m :: HasEdge(Forward(G, back), n, m) <==> m in Outs(G, n) && Edge(n, m) !in back
  {
  }

  lemma PathNotLonger(F: Succ, n: Node, p: seq<Node>, memo: Memo, best: nat)
    requires PathFrom(F, p, n) && best >= 1
    requires forall m :: HasEdge(F, n, m) ==> m in memo && Longest(F, m, memo[m]) && 1 + memo[m] <= best
    ensures |p| <= best
  {
    if |p| > 1 {
      assert HasEdge(F, n, p[1]);
      assert Longest(F, p[1], memo[p[1]]);
      assert PathFrom(F, p[1..], p[1]);
    }
  }

  // ----- the invariant of the search -----

  function StackSet(st: D.Stack): set<Node> {
    match st
    case Bottom => {}
    case Push(f, below) => StackSet(below) + {f.node}
  }

  // The targets a frame has passed are memoised, but for the one it waits for.
  ghost predicate Passed(G: Succ, back: set<Edge>, memo: Memo, f: D.Frame, waiting: set<Node>) {
    forall i :: 0 <= i < f.next && i < |Outs(G, f.node)| && Edge(f.node, Outs(G, f.node)[i]) !in back ==>
      Outs(G, f.node)[i] in memo || Outs(G, f.node)[i] in waiting
  }

  // Every frame below another waits for it, one forward flow away.
  ghost predicate Waits(G: Succ, back: set<Edge>, memo: Memo, st: D.Stack, above: Node) {
    match st
    case Bottom => true
    case Push(f, below) =>
      && f.entered && HasEdge(Forward(G, back), f.node, above)
      && Passed(G, back, memo, f, {above})
      && Waits(G, back, memo, below, f.node)
  }

  ghost predicate TopOk(G: Succ, back: set<Edge>, memo: Memo, st: D.Stack) {
    match st
    case Bottom => true
    case Push(f, below) =>
      Passed(G, back, memo, f, {}) && (!f.entered ==> f.next == 0) && Waits(G, back, memo, below, f.node)
  }

  ghost predicate MemoOk(F: Succ, memo: Memo) {
    forall n :: n in memo ==> Longest(F, n, memo[n])
  }

  ghost predicate Measuring(G: Succ, back: set<Edge>, rank: map<Node, nat>, start: Node, c: D.Config<Memo>) {
    && MemoOk(Forward(G, back), c.s)
    && c.s.Keys !! StackSet(c.stack)
    && c.visited == c.s.Keys + StackSet(c.stack)
    && c.visited <= rank.Keys && start in c.visited
    && TopOk(G, back, c.s, c.stack)
  }

  // Frames below another have higher ranks, so no forward flow of it leads back to them.
  lemma {:induction false} BelowHigher(G: Succ, back: set<Edge>, rank: map<Node, nat>, memo: Memo, st: D.Stack,
                                       above: Node, n: Node)
    requires Ranked(Forward(G, back), rank) && StackSet(st) <= rank.Keys && above in rank
    requires Waits(G, back, memo, st, above) && n in StackSet(st)
    ensures rank[n] > rank[above]
  {
    hide HasEdge, Passed;
    assert st.top.node in StackSet(st);
    if n != st.top.node {
      BelowHigher(G, back, rank, memo, st.below, st.top.node, n);
    }
  }

  lemma {:induction false} WaitsMore(G: Succ, back: set<Edge>, memo: Memo, memo': Memo, st: D.Stack, above: Node)
    requires Waits(G, back, memo, st, above) && memo.Keys <= memo'.Keys
    ensures Waits(G, back, memo', st, above)
  {
    hide HasEdge;
    if st.Push? {
      WaitsMore(G, back, memo, memo', st.below, st.top.node);
    }
  }

  lemma Entering(G: Succ, back: set<Edge>, rank: map<Node, nat>, start: Node, c: D.Config<Memo>)
    requires Measuring(G, back, rank, start, c) && c.stack.Push? && !c.stack.top.entered
    ensures Measuring(G, back, rank, start, D.Enter(DepthVisitor(G, back), c))
  {
    hide MemoOk, HasEdge, Waits;
  }

  lemma Leaving(G: Succ, back: set<Edge>, rank: map<Node, nat>, start: Node, c: D.Config<Memo>)
    requires Ranked(Forward(G, back), rank)
    requires Measuring(G, back, rank, start, c) && c.stack.Push? && c.stack.top.entered
             && c.stack.top.next >= |Outs(G, c.stack.top.node)|
    ensures Measuring(G, back, rank, start, D.Advance(G, DepthVisitor(G, back), c))
  {
    hide Longest, HasEdge, Ranked;
    var f, below := c.stack.top, c.stack.below;
    var memo' := c.s[f.node := Best(f.node, Outs(G, f.node), back, c.s)];
    OutsForward(G, back, f.node);
    forall m | HasEdge(Forward(G, back), f.node, m)
      ensures m in c.s
    {
      var i :| 0 <= i < |Outs(G, f.node)| && Outs(G, f.node)[i] == m;
    }
    BestIsLongest(G, back, f.node, c.s);
    NotBelow(G, back, rank, c.s, below, f.node);
    if below.Push? {
      WaitsMore(G, back, c.s, memo', below.below, below.top.node);
    }
  }

  lemma NotBelow(G: Succ, back: set<Edge>, rank: map<Node, nat>, memo: Memo, st: D.Stack, above: Node)
    requires Waits(G, back, memo, st, above)
    ensures above in rank && StackSet(st) <= rank.Keys && Ranked(Forward(G, back), rank) ==> above !in StackSet(st)
  {
    if above in rank && StackSet(st) <= rank.Keys && Ranked(Forward(G, back), rank) && above in StackSet(st) {
      BelowHigher(G, back, rank, memo, st, above, above);
    }
  }

  // A forward target already met has been left: a frame still open would close a forward cycle.
  lemma MetIsLeft(G: Succ, back: set<Edge>, rank: map<Node, nat>, start: Node, c: D.Config<Memo>, m: Node)
    requires Ranked(Forward(G, back), rank) && Measuring(G, back, rank, start, c) && c.stack.Push?
    requires HasEdge(Forward(G, back), c.stack.top.node, m)
    ensures m in rank && (m in c.visited ==> m in c.s)
  {
    hide MemoOk, Passed;
    var f, below := c.stack.top, c.stack.below;
    if m in c.visited && m !in c.s && m != f.node {
      BelowHigher(G, back, rank, c.s, below, f.node, m);
    }
  }

  lemma Offering(G: Succ, back: set<Edge>, rank: map<Node, nat>, start: Node, c: D.Config<Memo>)
    requires Ranked(Forward(G, back), rank)
    requires Measuring(G, back, rank, start, c) && c.stack.Push? && c.stack.top.entered
             && c.stack.top.next < |Outs(G, c.stack.top.node)|
    ensures Measuring(G, back, rank, start, D.Advance(G, DepthVisitor(G, back), c))
  {
    hide MemoOk, Longest, HasEdge, Ranked;
    var f, below := c.stack.top, c.stack.below;
    var m := Outs(G, f.node)[f.next];
    var st := D.Push(f.(next := f.next + 1), below);
    OutsForward(G, back, f.node);
    assert StackSet(st) == StackSet(c.stack);
    if Edge(f.node, m) !in back {
      assert HasEdge(Forward(G, back), f.node, m);
      MetIsLeft(G, back, rank, start, c, m);
      assert Waits(G, back, c.s, st, m);
    }
    if m !in c.visited && Edge(f.node, m) !in back {
      assert StackSet(D.Push(D.Frame(m, false, 0), st)) == StackSet(st) + {m};
      assert TopOk(G, back, c.s, D.Push(D.Frame(m, false, 0), st));
    } else {
      assert TopOk(G, back, c.s, st);
    }
  }

  lemma Measures(G: Succ, back: set<Edge>, rank: map<Node, nat>, start: Node, c: D.Config<Memo>)
    requires Ranked(Forward(G, back), rank) && Measuring(G, back, rank, start, c) && c.stack.Push?
    ensures !c.stack.top.entered ==> Measuring(G, back, rank, start, D.Enter(DepthVisitor(G, back), c))
    ensures c.stack.top.entered ==> Measuring(G, back, rank, start, D.Advance(G, DepthVisitor(G, back), c))
  {
    hide Measuring, DepthVisitor;
    if !c.stack.top.entered {
      Entering(G, back, rank, start, c);
    } else if c.stack.top.next >= |Outs(G, c.stack.top.node)| {
      Leaving(G, back, rank, start, c);
    } else {
      Offering(G, back, rank, start, c);
    }
  }

  lemma Measured(G: Succ, back: set<Edge>, rank: map<Node, nat>, start: Node, memo: Memo, visited: set<Node>)
    requires Measuring(G, back, rank, start, D.Config(memo, visited, D.Bottom))
    ensures start in memo && Longest(Forward(G, back), start, memo[start])
  {
    hide Longest;
  }

  lemma FirstMeasure(G: Succ, back: set<Edge>, rank: map<Node, nat>, start: Node)
    requires start in rank
    ensures Measuring(G, back, rank, start, D.Start(map[], start))
  {
  }

  // Some forward path from start has more nodes than the limit of 2000.
  ghost predicate TooDeep(G: Succ, back: set<Edge>, start: Node) {
    exists p :: PathFrom(Forward(G, back), p, start) && |p| > 2000
  }

  /** A depth error is reported exactly when some forward path from the start exceeds the limit. */
  method ValidateMaxDepth(G: Succ, back: set<Edge>, start: Node, ghost rank: map<Node, nat>) returns (tooDeep: bool,
                          depth: nat)
    requires Ranked(Forward(G, back), rank) && start in rank
    ensures Longest(Forward(G, back), start, depth)
    ensures tooDeep <==> TooDeep(G, back, start)
  {
    hide Measuring, Ranked, Longest;
    FirstMeasure(G, back, rank, start);
    forall c: D.Config<Memo> | Measuring(G, back, rank, start, c) && c.stack.Push?
      ensures !c.stack.top.entered ==> Measuring(G, back, rank, start, D.Enter(DepthVisitor(G, back), c))
      ensures c.stack.top.entered ==> Measuring(G, back, rank, start, D.Advance(G, DepthVisitor(G, back), c))
    {
      Measures(G, back, rank, start, c);
    }
    hide DepthVisitor;
    var memo := D.IterativeDFS(G, start, DepthVisitor(G, back), map[], c => Measuring(G, back, rank, start, c));
    ghost var visited :| Measuring(G, back, rank, start, D.Config(memo, visited, D.Bottom));
    Measured(G, back, rank, start, memo, visited);
    depth := memo[start];
    tooDeep := depth > MAX_PATH_DEPTH;
    DeepIff(G, back, start, depth);
  }

  lemma DeepIff(G: Succ, back: set<Edge>, start: Node, depth: nat)
    requires Longest(Forward(G, back), start, depth)
    ensures TooDeep(G, back, start) <==> depth > MAX_PATH_DEPTH
  {
    hide PathFrom;
  }
}

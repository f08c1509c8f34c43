/**
 * Back-edge classification over several roots (graph_algorithms.go): the
 * forward graph left over is acyclic on everything the roots reach, and every
 * flow taken out closes a cycle of flows that stay in.
 */
module BackEdges {
  import opened Wrappers
  import opened Graphs
  import opened Dfs

  datatype Marks = Marks(back: set<Edge>, onStack: set<Node>, done: set<Node>)

  function OnEnter(m: Marks, v: Node): (Marks, bool) {
    if v in m.done then (m, false)
    else (m.(done := m.done + {v}, onStack := m.onStack + {v}), true)
  }

  function OnEdge(m: Marks, from: Node, to: Node, seen: bool): (Marks, bool) {
    if to in m.onStack then (m.(back := m.back + {Edge(from, to)}), false) else (m, !seen)
  }

  function OnExit(m: Marks, v: Node): Marks {
    m.(onStack := m.onStack - {v})
  }

  function BackEdgeVisitor(): Visitor<Marks> {
    Visitor((m, v) => OnEnter(m, v), (m, from, to, seen) => OnEdge(m, from, to, seen), (m, v) => OnExit(m, v))
  }

  // Discovery and finishing times, the witnesses of the search's invariant.
  datatype Clock = Clock(disc: map<Node, nat>, rank: map<Node, nat>, now: nat)

  // ----- what the classification promises -----

  // A forward path, its back edge aside, from v to u closing the cycle u -> v.
  ghost predicate ClosesForwardCycle(G: Succ, back: set<Edge>, e: Edge) {
    HasEdge(G, e.from, e.to) && Reaches(Forward(G, back), e.to, e.from)
  }

  ghost predicate ReachedFrom(G: Succ, roots: seq<Node>, n: Node) {
    exists r :: r in roots && Reaches(G, r, n)
  }

  ghost predicate Classified(G: Succ, roots: seq<Node>, back: set<Edge>, rank: map<Node, nat>) {
    && Ranked(Forward(G, back), rank)
    && (forall n :: n in rank <==> ReachedFrom(G, roots, n))
    && (forall e :: e in back ==> ClosesForwardCycle(G, back, e))
    && (forall e :: e in back ==> e.from in rank && e.to in rank)
  }

  // ----- the invariant of the search -----
  // reach stands for the nodes the roots reach; the search never leaves it.

  ghost predicate Timed(m: Marks, k: Clock) {
    && k.disc.Keys == m.done
    && k.rank.Keys == m.done - m.onStack
    && m.onStack <= m.done
    && (forall n :: n in k.disc ==> k.disc[n] < k.now)
    && (forall n :: n in k.rank ==> k.rank[n] < k.now)
    && (forall e :: e in m.back ==> e.from in m.done && e.to in m.done)
  }

  function Open(st: Stack): set<Node> {
    match st
    case Bottom => {}
    case Push(f, below) => Open(below) + if f.entered then {f.node} else {}
  }

  // The flow was classified back, leads to a finished node, or is being followed into child.
  ghost predicate Handled(back: set<Edge>, rank: map<Node, nat>, from: Node, to: Node, child: Option<Node>) {
    Edge(from, to) in back || to in rank || child == Some(to)
  }

  ghost predicate FrameOk(G: Succ, back: set<Edge>, k: Clock, f: Frame, child: Option<Node>) {
    && f.node in k.disc
    && forall j :: 0 <= j < f.next && j < |Outs(G, f.node)| ==>
         Handled(back, k.rank, f.node, Outs(G, f.node)[j], child)
  }

  // f was followed from the frame below it along a forward edge.
  ghost predicate FollowedFrom(G: Succ, back: set<Edge>, k: Clock, below: Stack, f: Frame) {
    below.Push? ==>
      && HasEdge(G, below.top.node, f.node) && Edge(below.top.node, f.node) !in back
      && below.top.node in k.disc && f.node in k.disc && k.disc[below.top.node] < k.disc[f.node]
  }

  // The entered part of the stack; child is the node being followed from its top.
  ghost predicate StackOk(G: Succ, back: set<Edge>, k: Clock, st: Stack, child: Option<Node>) {
    match st
    case Bottom => true
    case Push(f, below) =>
      && f.entered && f.node !in Open(below)
      && FrameOk(G, back, k, f, child)
      && FollowedFrom(G, back, k, below, f)
      && StackOk(G, back, k, below, Some(f.node))
  }

  // The top frame when it is still waiting to be entered.
  ghost predicate Waiting(G: Succ, m: Marks, below: Stack, f: Frame) {
    && !f.entered && f.next == 0 && f.node !in m.onStack
    && (below.Push? ==> HasEdge(G, below.top.node, f.node))
  }

  ghost predicate Searching(G: Succ, c: Config<Marks>, k: Clock) {
    && c.s.onStack == Open(c.stack)
    && if c.stack.Push? && !c.stack.top.entered then
         && Waiting(G, c.s, c.stack.below, c.stack.top)
         && StackOk(G, c.s.back, k, c.stack.below, Some(c.stack.top.node))
         && c.visited <= c.s.done + {c.stack.top.node}
       else
         && StackOk(G, c.s.back, k, c.stack, None)
         && c.visited <= c.s.done
  }

  ghost predicate With(G: Succ, reach: set<Node>, c: Config<Marks>, k: Clock) {
    && Timed(c.s, k) && Ranked(Forward(G, c.s.back), k.rank) && Searching(G, c, k)
    && c.s.done <= reach
    && (c.stack.Push? && !c.stack.top.entered ==> c.stack.top.node in reach)
  }

  // A path of forward edges along which discovery times rise.
  ghost predicate Rising(F: Succ, disc: map<Node, nat>, p: seq<Node>) {
    && p != [] && p[0] in disc
    && (|p| == 1 || (p[1] in disc && disc[p[0]] < disc[p[1]] && HasEdge(F, p[0], p[1]) && Rising(F, disc, p[1..])))
  }

  ghost predicate Rises(G: Succ, back: set<Edge>, disc: map<Node, nat>, u: Node, v: Node) {
    exists p :: p != [] && Rising(Forward(G, back), disc, p) && p[0] == u && p[|p|-1] == v
  }

  ghost predicate AllClose(G: Succ, back: set<Edge>, disc: map<Node, nat>) {
    forall e :: e in back ==> HasEdge(G, e.from, e.to) && Rises(G, back, disc, e.to, e.from)
  }

  // done0: what earlier roots finished; root is scheduled from the start.
  ghost predicate Inv(G: Succ, reach: set<Node>, done0: set<Node>, root: Node, c: Config<Marks>) {
    && done0 <= c.s.done
    && root in c.visited
    && exists k :: With(G, reach, c, k) && AllClose(G, c.s.back, k.disc)
  }

  // ----- preservation, one step of the search at a time -----

  // Later times and further back edges leave an entered stack in order.
  lemma {:induction false} StackKept(G: Succ, back: set<Edge>, k: Clock, back': set<Edge>, k': Clock,
                                     st: Stack, child: Option<Node>, child': Option<Node>)
    requires StackOk(G, back, k, st, child)
    requires back <= back' && k.rank.Keys <= k'.rank.Keys
    requires forall n :: n in k.disc ==> n in k'.disc && k'.disc[n] == k.disc[n]
    requires forall e :: e in back' - back ==> st.Push? ==> e.from !in Open(st.below)
    requires child == child' || child.None? || child.value in k'.rank
    ensures StackOk(G, back', k', st, child')
  {
    match st
    case Bottom =>
    case Push(f, below) =>
      StackKept(G, back, k, back', k', below, Some(f.node), Some(f.node));
  }

  lemma Stay(G: Succ, reach: set<Node>, c: Config<Marks>, k: Clock) returns (k': Clock)
    requires With(G, reach, c, k) && c.stack.Push? && !c.stack.top.entered && c.stack.top.node !in c.s.done
    ensures With(G, reach, Enter(BackEdgeVisitor(), c), k')
    ensures k'.disc == k.disc[c.stack.top.node := k.now]
  {
    var f := c.stack.top;
    k' := Clock(k.disc[f.node := k.now], k.rank, k.now + 1);
    StackKept(G, c.s.back, k, c.s.back, k', c.stack.below, Some(f.node), Some(f.node));
  }

  lemma Drop(G: Succ, reach: set<Node>, c: Config<Marks>, k: Clock)
    requires With(G, reach, c, k) && c.stack.Push? && !c.stack.top.entered && c.stack.top.node in c.s.done
    ensures With(G, reach, Enter(BackEdgeVisitor(), c), k)
  {
    var f := c.stack.top;
    assert f.node in k.rank;
    StackKept(G, c.s.back, k, c.s.back, k, c.stack.below, Some(f.node), None);
  }

  lemma Exit(G: Succ, reach: set<Node>, c: Config<Marks>, k: Clock) returns (k': Clock)
    requires With(G, reach, c, k) && c.stack.Push? && c.stack.top.entered
    requires c.stack.top.next >= |Outs(G, c.stack.top.node)|
    ensures With(G, reach, Advance(G, BackEdgeVisitor(), c), k') && k'.disc == k.disc
  {
    var f := c.stack.top;
    k' := Clock(k.disc, k.rank[f.node := k.now], k.now + 1);
    var F := Forward(G, c.s.back);
    forall v | HasEdge(F, f.node, v)
      ensures v in k.rank
    {
      var j :| 0 <= j < |Outs(G, f.node)| && Outs(G, f.node)[j] == v;
      assert Handled(c.s.back, k.rank, f.node, Outs(G, f.node)[j], None);
    }
    StackKept(G, c.s.back, k, c.s.back, k', c.stack.below, Some(f.node), None);
  }

  lemma FewerForward(G: Succ, back: set<Edge>, e: Edge, rank: map<Node, nat>)
    requires Ranked(Forward(G, back), rank)
    ensures Ranked(Forward(G, back + {e}), rank)
  {
    forall u, v | u in rank && HasEdge(Forward(G, back + {e}), u, v)
      ensures v in rank && rank[v] < rank[u]
    {
      assert HasEdge(Forward(G, back), u, v);
    }
  }

  lemma CloseCycle(G: Succ, reach: set<Node>, c: Config<Marks>, k: Clock)
    requires With(G, reach, c, k) && c.stack.Push? && c.stack.top.entered
    requires c.stack.top.next < |Outs(G, c.stack.top.node)|
             && Outs(G, c.stack.top.node)[c.stack.top.next] in c.s.onStack
    ensures With(G, reach, Advance(G, BackEdgeVisitor(), c), k)
  {
    var f := c.stack.top;
    var to := Outs(G, f.node)[f.next];
    hide Ranked, HasEdge;
    FewerForward(G, c.s.back, Edge(f.node, to), k.rank);
    StackKept(G, c.s.back, k, c.s.back + {Edge(f.node, to)}, k, c.stack, None, None);
  }

  lemma Follow(G: Succ, reach: set<Node>, c: Config<Marks>, k: Clock)
    requires With(G, reach, c, k) && c.stack.Push? && c.stack.top.entered && Closed(G, reach)
    requires c.stack.top.next < |Outs(G, c.stack.top.node)|
             && Outs(G, c.stack.top.node)[c.stack.top.next] !in c.s.onStack
    ensures With(G, reach, Advance(G, BackEdgeVisitor(), c), k)
  {
    var f := c.stack.top;
    var to := Outs(G, f.node)[f.next];
    assert HasEdge(G, f.node, to);
    if to in c.visited {
      assert to in k.rank;
    } else {
      StackKept(G, c.s.back, k, c.s.back, k, c.stack, None, Some(to));
    }
  }

  // ----- every back edge closes a cycle of forward edges -----

  lemma {:induction false} SameRising(F: Succ, disc: map<Node, nat>, disc': map<Node, nat>, p: seq<Node>)
    requires Rising(F, disc, p)
    requires forall n :: n in disc ==> n in disc' && disc'[n] == disc[n]
    ensures Rising(F, disc', p)
  {
    if |p| > 1 {
      SameRising(F, disc, disc', p[1..]);
    }
  }

  lemma StillClose(G: Succ, back: set<Edge>, disc: map<Node, nat>, disc': map<Node, nat>)
    requires AllClose(G, back, disc)
    requires forall n :: n in disc ==> n in disc' && disc'[n] == disc[n]
    ensures AllClose(G, back, disc')
  {
    forall e | e in back
      ensures HasEdge(G, e.from, e.to) && Rises(G, back, disc', e.to, e.from)
    {
      var p :| Rising(Forward(G, back), disc, p) && p[0] == e.to && p[|p|-1] == e.from;
      SameRising(Forward(G, back), disc, disc', p);
    }
  }

  lemma {:induction false} RisingSnoc(F: Succ, disc: map<Node, nat>, p: seq<Node>, n: Node)
    requires Rising(F, disc, p) && HasEdge(F, p[|p|-1], n)
    requires p[|p|-1] in disc && n in disc && disc[p[|p|-1]] < disc[n]
    ensures Rising(F, disc, p + [n])
  {
    if |p| == 1 {
      assert (p + [n])[1..] == [n];
    } else {
      RisingSnoc(F, disc, p[1..], n);
      assert (p + [n])[1..] == p[1..] + [n];
    }
  }

  lemma RisesTo(G: Succ, back: set<Edge>, disc: map<Node, nat>, p: seq<Node>, w: Node)
    requires p != [] && Rising(Forward(G, back), disc, p) && HasEdge(Forward(G, back), p[|p|-1], w)
    requires p[|p|-1] in disc && w in disc && disc[p[|p|-1]] < disc[w]
    ensures Rises(G, back, disc, p[0], w)
  {
    hide Rising, Forward, HasEdge;
    RisingSnoc(Forward(G, back), disc, p, w);
    var q := p + [w];
    assert q[0] == p[0] && q[|q|-1] == w;
  }

  lemma RisesSnoc(G: Succ, back: set<Edge>, disc: map<Node, nat>, u: Node, v: Node, w: Node)
    requires Rises(G, back, disc, u, v) && HasEdge(G, v, w) && Edge(v, w) !in back
    requires v in disc && w in disc && disc[v] < disc[w]
    ensures Rises(G, back, disc, u, w)
  {
    hide Rising;
    assert HasEdge(Forward(G, back), v, w);
    var p :| p != [] && Rising(Forward(G, back), disc, p) && p[0] == u && p[|p|-1] == v;
    hide Forward, HasEdge, Rises;
    RisesTo(G, back, disc, p, w);
  }

  // Every open node reaches the top of the stack along forward edges.
  lemma {:induction false} StackRises(G: Succ, back: set<Edge>, k: Clock, st: Stack, child: Option<Node>, n: Node)
    requires StackOk(G, back, k, st, child) && n in Open(st)
    ensures Rises(G, back, k.disc, n, st.top.node)
  {
    if n == st.top.node {
      assert Rising(Forward(G, back), k.disc, [n]);
    } else {
      StackRises(G, back, k, st.below, Some(st.top.node), n);
      RisesSnoc(G, back, k.disc, n, st.below.top.node, st.top.node);
    }
  }

  lemma {:induction false} RisingPath(F: Succ, disc: map<Node, nat>, p: seq<Node>)
    requires Rising(F, disc, p)
    ensures Path(F, p) && p[|p|-1] in disc && disc[p[0]] <= disc[p[|p|-1]]
  {
    if |p| > 1 {
      RisingPath(F, disc, p[1..]);
    }
  }

  // A flow that does not rise is on no rising path, so removing it breaks none.
  lemma {:induction false} RisingWithout(G: Succ, back: set<Edge>, disc: map<Node, nat>, e: Edge, p: seq<Node>)
    requires Rising(Forward(G, back), disc, p)
    requires e.from in disc && e.to in disc && disc[e.to] <= disc[e.from]
    ensures Rising(Forward(G, back + {e}), disc, p)
  {
    if |p| > 1 {
      assert HasEdge(Forward(G, back), p[0], p[1]);
      assert HasEdge(Forward(G, back + {e}), p[0], p[1]);
      RisingWithout(G, back, disc, e, p[1..]);
    }
  }

  lemma NewCycleCloses(G: Succ, back: set<Edge>, k: Clock, st: Stack, to: Node)
    requires AllClose(G, back, k.disc) && StackOk(G, back, k, st, None)
    requires to in Open(st) && HasEdge(G, st.top.node, to)
    ensures AllClose(G, back + {Edge(st.top.node, to)}, k.disc)
  {
    var e := Edge(st.top.node, to);
    StackRises(G, back, k, st, None, to);
    var q :| Rising(Forward(G, back), k.disc, q) && q[0] == to && q[|q|-1] == st.top.node;
    RisingPath(Forward(G, back), k.disc, q);
    forall b | b in back + {e}
      ensures HasEdge(G, b.from, b.to) && Rises(G, back + {e}, k.disc, b.to, b.from)
    {
      assert Rises(G, back, k.disc, b.to, b.from);
      var p :| Rising(Forward(G, back), k.disc, p) && p[0] == b.to && p[|p|-1] == b.from;
      RisingWithout(G, back, k.disc, e, p);
    }
  }

  lemma EnterKeeps(G: Succ, reach: set<Node>, c: Config<Marks>, k: Clock) returns (k': Clock)
    requires With(G, reach, c, k) && AllClose(G, c.s.back, k.disc) && c.stack.Push? && !c.stack.top.entered
    ensures var d := Enter(BackEdgeVisitor(), c); With(G, reach, d, k') && AllClose(G, d.s.back, k'.disc)
  {
    hide With, AllClose;
    if c.stack.top.node in c.s.done {
      Drop(G, reach, c, k);
      k' := k;
    } else {
      k' := Stay(G, reach, c, k);
      assert c.stack.top.node !in k.disc by { NewUntimed(G, reach, c, k); }
      StillClose(G, c.s.back, k.disc, k'.disc);
    }
  }

  lemma NewUntimed(G: Succ, reach: set<Node>, c: Config<Marks>, k: Clock)
    requires With(G, reach, c, k) && c.stack.Push? && c.stack.top.node !in c.s.done
    ensures c.stack.top.node !in k.disc
  {
    hide Ranked, Searching;
  }

  lemma AdvanceKeeps(G: Succ, reach: set<Node>, c: Config<Marks>, k: Clock) returns (k': Clock)
    requires With(G, reach, c, k) && AllClose(G, c.s.back, k.disc) && c.stack.Push? && c.stack.top.entered
             && Closed(G, reach)
    ensures var d := Advance(G, BackEdgeVisitor(), c); With(G, reach, d, k') && AllClose(G, d.s.back, k'.disc)
  {
    hide With, AllClose, Closed;
    var f := c.stack.top;
    k' := k;
    if f.next >= |Outs(G, f.node)| {
      k' := Exit(G, reach, c, k);
    } else if Outs(G, f.node)[f.next] in c.s.onStack {
      CloseCycle(G, reach, c, k);
      CycleCloses(G, reach, c, k);
    } else {
      Follow(G, reach, c, k);
    }
  }

  lemma CycleCloses(G: Succ, reach: set<Node>, c: Config<Marks>, k: Clock)
    requires With(G, reach, c, k) && AllClose(G, c.s.back, k.disc) && c.stack.Push? && c.stack.top.entered
    requires c.stack.top.next < |Outs(G, c.stack.top.node)|
             && Outs(G, c.stack.top.node)[c.stack.top.next] in c.s.onStack
    ensures AllClose(G, c.s.back + {Edge(c.stack.top.node, Outs(G, c.stack.top.node)[c.stack.top.next])}, k.disc)
  {
    hide AllClose, Ranked;
    NewCycleCloses(G, c.s.back, k, c.stack, Outs(G, c.stack.top.node)[c.stack.top.next]);
  }

  lemma StepKeeps(G: Succ, reach: set<Node>, done0: set<Node>, root: Node, c: Config<Marks>)
    requires Inv(G, reach, done0, root, c) && c.stack.Push? && Closed(G, reach)
    ensures !c.stack.top.entered ==> Inv(G, reach, done0, root, Enter(BackEdgeVisitor(), c))
    ensures c.stack.top.entered ==> Inv(G, reach, done0, root, Advance(G, BackEdgeVisitor(), c))
  {
    hide With, AllClose, Closed;
    var k :| With(G, reach, c, k) && AllClose(G, c.s.back, k.disc);
    if !c.stack.top.entered {
      var k' := EnterKeeps(G, reach, c, k);
    } else {
      var k' := AdvanceKeeps(G, reach, c, k);
    }
  }

  // ----- the classification -----

  ghost predicate Settled(G: Succ, reach: set<Node>, m: Marks, k: Clock) {
    && Timed(m, k) && Ranked(Forward(G, m.back), k.rank) && AllClose(G, m.back, k.disc)
    && m.onStack == {} && m.done <= reach
  }

  // Between two roots everything seen is finished.
  ghost predicate AllFinished(G: Succ, reach: set<Node>, m: Marks) {
    exists k :: Settled(G, reach, m, k)
  }

  lemma Begin(G: Succ, reach: set<Node>, m: Marks, root: Node)
    requires AllFinished(G, reach, m) && root in reach
    ensures Inv(G, reach, m.done, root, Start(m, root))
  {
    var k :| Settled(G, reach, m, k);
    assert With(G, reach, Start(m, root), k);
  }

  lemma End(G: Succ, reach: set<Node>, done0: set<Node>, root: Node, m: Marks, visited: set<Node>)
    requires Inv(G, reach, done0, root, Config(m, visited, Bottom))
    ensures AllFinished(G, reach, m) && done0 <= m.done && root in m.done
  {
    var c := Config(m, visited, Bottom);
    var k :| With(G, reach, c, k) && AllClose(G, c.s.back, k.disc);
    assert Settled(G, reach, m, k);
  }

  method ClassifyFrom(G: Succ, ghost reach: set<Node>, root: Node, m: Marks) returns (m': Marks)
    requires AllFinished(G, reach, m) && root in reach && Closed(G, reach)
    ensures AllFinished(G, reach, m') && m.done <= m'.done && root in m'.done
  {
    ghost var inv := (c: Config<Marks>) => Inv(G, reach, m.done, root, c);
    Begin(G, reach, m, root);
    forall c: Config<Marks> | inv(c) && c.stack.Push?
      ensures !c.stack.top.entered ==> inv(Enter(BackEdgeVisitor(), c))
      ensures c.stack.top.entered ==> inv(Advance(G, BackEdgeVisitor(), c))
    {
      StepKeeps(G, reach, m.done, root, c);
    }
    m' := IterativeDFS(G, root, BackEdgeVisitor(), m, inv);
    ghost var visited :| inv(Config(m', visited, Bottom));
    End(G, reach, m.done, root, m', visited);
  }

  lemma DoneClosed(G: Succ, m: Marks, rank: map<Node, nat>)
    requires Ranked(Forward(G, m.back), rank) && rank.Keys == m.done
    requires forall e :: e in m.back ==> e.to in m.done
    ensures Closed(G, m.done)
  {
    forall u, v | u in m.done && HasEdge(G, u, v)
      ensures v in m.done
    {
      if Edge(u, v) !in m.back {
        assert HasEdge(Forward(G, m.back), u, v);
      }
    }
  }

  lemma ClosesForward(G: Succ, back: set<Edge>, disc: map<Node, nat>, e: Edge)
    requires AllClose(G, back, disc) && e in back
    ensures ClosesForwardCycle(G, back, e)
  {
    var p :| Rising(Forward(G, back), disc, p) && p[0] == e.to && p[|p|-1] == e.from;
    RisingPath(Forward(G, back), disc, p);
    assert PathBetween(Forward(G, back), p, e.to, e.from);
  }

  // What is done is what the roots reach.
  lemma DoneReached(G: Succ, roots: seq<Node>, reach: set<Node>, done: set<Node>)
    requires Closed(G, done) && done <= reach && forall r :: r in roots ==> r in done
    requires forall n :: n in reach ==> ReachedFrom(G, roots, n)
    ensures forall n :: n in done <==> ReachedFrom(G, roots, n)
  {
    hide Reaches, Closed;
    forall n | ReachedFrom(G, roots, n)
      ensures n in done
    {
      var r :| r in roots && Reaches(G, r, n);
      ClosedReaches(G, done, r, n);
    }
  }

  lemma Finish(G: Succ, roots: seq<Node>, reach: set<Node>, m: Marks, k: Clock)
    requires Settled(G, reach, m, k)
    requires forall r :: r in roots ==> r in m.done
    requires forall n :: n in reach ==> ReachedFrom(G, roots, n)
    ensures Classified(G, roots, m.back, k.rank)
  {
    hide Reaches, AllClose, Ranked, Closed, ClosesForwardCycle, ReachedFrom;
    assert k.rank.Keys == m.done;
    DoneClosed(G, m, k.rank);
    DoneReached(G, roots, reach, m.done);
    forall e | e in m.back
      ensures ClosesForwardCycle(G, m.back, e)
    {
      ClosesForward(G, m.back, k.disc, e);
    }
  }

  ghost function ReachSet(G: Succ, roots: seq<Node>): set<Node> {
    (set n | n in roots) + set n | n in Targets(G) && ReachedFrom(G, roots, n)
  }

  lemma ReachSetClosed(G: Succ, roots: seq<Node>)
    ensures Closed(G, ReachSet(G, roots))
    ensures forall n :: n in ReachSet(G, roots) ==> ReachedFrom(G, roots, n)
  {
    forall n | n in ReachSet(G, roots)
      ensures ReachedFrom(G, roots, n)
    {
      if n in roots {
        ReachesSelf(G, n);
      }
    }
    forall u, v | u in ReachSet(G, roots) && HasEdge(G, u, v)
      ensures v in ReachSet(G, roots)
    {
      assert ReachedFrom(G, roots, u);
      var r :| r in roots && Reaches(G, r, u);
      ReachesSnoc(G, r, u, v);
      assert u in G && v in G[u];
    }
  }

  lemma NothingSettled(G: Succ, reach: set<Node>)
    ensures Settled(G, reach, Marks({}, {}, {}), Clock(map[], map[], 0))
  {
  }

  lemma RootsReached(G: Succ, roots: seq<Node>)
    ensures forall r :: r in roots ==> r in ReachSet(G, roots)
  {
  }

  /**
   * One search from every root leaves a rank that drops along each flow kept,
   * and takes out only flows that close a cycle of kept ones.
   */
  method ClassifyBackEdges(G: Succ, roots: seq<Node>) returns (back: set<Edge>)
    ensures exists rank :: Classified(G, roots, back, rank)
  {
    hide Settled, Closed, ReachedFrom, ReachSet, Classified;
    ghost var reach := ReachSet(G, roots);
    ReachSetClosed(G, roots);
    RootsReached(G, roots);
    var m := Marks({}, {}, {});
    NothingSettled(G, reach);
    for i := 0 to |roots|
      invariant AllFinished(G, reach, m)
      invariant forall j :: 0 <= j < i ==> roots[j] in m.done
    {
      m := ClassifyFrom(G, reach, roots[i], m);
    }
    back := m.back;
    ghost var k :| Settled(G, reach, m, k);
    Finish(G, roots, reach, m, k);
  }

  // ----- consequences -----

  // A flow leaving a reached node is a back edge exactly when it closes a cycle of forward flows.
  lemma BackEdgeIffClosesCycle(G: Succ, roots: seq<Node>, back: set<Edge>, rank: map<Node, nat>, u: Node, v: Node)
    requires Classified(G, roots, back, rank) && ReachedFrom(G, roots, u) && HasEdge(G, u, v)
    ensures Edge(u, v) in back <==> Reaches(Forward(G, back), v, u)
  {
    if Edge(u, v) in back {
      assert ClosesForwardCycle(G, back, Edge(u, v));
    } else if Reaches(Forward(G, back), v, u) {
      assert HasEdge(Forward(G, back), u, v);
      RankedReaches(Forward(G, back), rank, v, u);
    }
  }

  /** From a node the roots reach no cycle of forward flows is left to be met. */
  lemma ReachedIsUnbroken(G: Succ, roots: seq<Node>, back: set<Edge>, rank: map<Node, nat>, n: Node)
    requires Classified(G, roots, back, rank) && ReachedFrom(G, roots, n)
    ensures !ReachesCycle(Forward(G, back), n)
  {
    hide ReachedFrom, ClosesForwardCycle, ReachesCycle, Ranked;
    RankedAcyclic(Forward(G, back), rank, n);
  }
}

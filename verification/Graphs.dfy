/** Optional values: the source writes an absent node as the empty string. */
module Wrappers {
  datatype Option<+T> = None | Some(value: T)
}

/** What is left of a finite set gets smaller: the measure of every search here. */
module Sets {
  lemma {:induction false} SubsetSize<T>(a: set<T>, b: set<T>)
    requires a <= b
    ensures |a| <= |b|
  {
    if a != {} {
      var x :| x in a;
      SubsetSize(a - {x}, b - {x});
    }
  }

  lemma FewerLeft<T>(all: set<T>, seen: set<T>, more: set<T>, x: T)
    requires seen <= more && x in all && x !in seen && x in more
    ensures |all - more| < |all - seen|
  {
    SubsetSize(all - more, all - seen - {x});
  }
}

/**
 * Directed graphs as successor lists, the shape of `Graph.Outgoing`: paths,
 * reachability, cycles, and the forward graph left when back edges are removed.
 */
module Graphs {
  // A node id. The source's ids are strings, of which only equality matters.
  datatype Node = Node(id: nat)

  type Succ = map<Node, seq<Node>>
  datatype Edge = Edge(from: Node, to: Node)

  function Outs(G: Succ, n: Node): seq<Node> {
    if n in G then G[n] else []
  }

  predicate HasEdge(G: Succ, u: Node, v: Node) {
    v in Outs(G, u)
  }

  // Every node a walk that starts among the keys can meet.
  function Targets(G: Succ): set<Node> {
    set u, v | u in G && v in G[u] :: v
  }

  ghost predicate Path(G: Succ, p: seq<Node>) {
    p != [] && (|p| == 1 || (HasEdge(G, p[0], p[1]) && Path(G, p[1..])))
  }

  ghost predicate PathBetween(G: Succ, p: seq<Node>, u: Node, v: Node) {
    Path(G, p) && p[0] == u && p[|p|-1] == v
  }

  ghost predicate Reaches(G: Succ, u: Node, v: Node) {
    exists p :: PathBetween(G, p, u, v)
  }

  // n lies on a cycle (a self-loop included).
  ghost predicate OnCycle(G: Succ, n: Node) {
    exists m :: HasEdge(G, n, m) && Reaches(G, m, n)
  }

  ghost predicate ReachesCycle(G: Succ, n: Node) {
    exists m :: Reaches(G, n, m) && OnCycle(G, m)
  }

  ghost predicate Closed(G: Succ, S: set<Node>) {
    forall u, v {:trigger HasEdge(G, u, v)} :: u in S && HasEdge(G, u, v) ==> v in S
  }

  // rank strictly drops along every edge out of its domain, which is closed.
  ghost predicate Ranked(G: Succ, rank: map<Node, nat>) {
    forall u, v {:trigger HasEdge(G, u, v)} :: u in rank && HasEdge(G, u, v) ==> v in rank && rank[v] < rank[u]
  }

  // ----- reachability -----

  lemma ReachesSelf(G: Succ, n: Node)
    ensures Reaches(G, n, n)
  {
    assert PathBetween(G, [n], n, n);
  }

  lemma ReachesEdge(G: Succ, u: Node, v: Node)
    requires HasEdge(G, u, v)
    ensures Reaches(G, u, v)
  {
    assert Path(G, [u, v][1..]);
    assert PathBetween(G, [u, v], u, v);
  }

  lemma {:induction false} PathJoin(G: Succ, p: seq<Node>, q: seq<Node>)
    requires Path(G, p) && Path(G, q) && p[|p|-1] == q[0]
    ensures Path(G, p + q[1..])
    ensures (p + q[1..])[0] == p[0] && (p + q[1..])[|p| + |q| - 2] == q[|q|-1]
  {
    if |p| == 1 {
      assert p + q[1..] == q;
    } else {
      PathJoin(G, p[1..], q);
      assert (p + q[1..])[1..] == p[1..] + q[1..];
    }
  }

  lemma ReachesTrans(G: Succ, u: Node, v: Node, w: Node)
    requires Reaches(G, u, v) && Reaches(G, v, w)
    ensures Reaches(G, u, w)
  {
    var p :| PathBetween(G, p, u, v);
    var q :| PathBetween(G, q, v, w);
    PathJoin(G, p, q);
    assert PathBetween(G, p + q[1..], u, w);
  }

  lemma ReachesStep(G: Succ, u: Node, v: Node, w: Node)
    requires HasEdge(G, u, v) && Reaches(G, v, w)
    ensures Reaches(G, u, w)
  {
    ReachesEdge(G, u, v);
    ReachesTrans(G, u, v, w);
  }

  lemma ReachesSnoc(G: Succ, u: Node, v: Node, w: Node)
    requires Reaches(G, u, v) && HasEdge(G, v, w)
    ensures Reaches(G, u, w)
  {
    ReachesEdge(G, v, w);
    ReachesTrans(G, u, v, w);
  }

  lemma ReachesFirst(G: Succ, u: Node, v: Node) returns (w: Node)
    requires Reaches(G, u, v) && u != v
    ensures HasEdge(G, u, w) && Reaches(G, w, v)
  {
    var p :| PathBetween(G, p, u, v);
    w := p[1];
    assert HasEdge(G, p[0], p[1]);
    assert PathBetween(G, p[1..], w, v);
  }

  // A path that leaves S leaves it through some edge.
  lemma {:induction false} PathExit(G: Succ, S: set<Node>, p: seq<Node>) returns (u: Node, v: Node)
    requires Path(G, p) && p[0] in S && p[|p|-1] !in S
    ensures u in S && v !in S && HasEdge(G, u, v)
    ensures Reaches(G, p[0], u) && Reaches(G, v, p[|p|-1])
  {
    assert HasEdge(G, p[0], p[1]);
    if p[1] !in S {
      u, v := p[0], p[1];
      ReachesSelf(G, u);
      assert PathBetween(G, p[1..], v, p[|p|-1]);
    } else {
      u, v := PathExit(G, S, p[1..]);
      ReachesStep(G, p[0], p[1], u);
    }
  }

  lemma ReachesExit(G: Succ, S: set<Node>, a: Node, b: Node) returns (u: Node, v: Node)
    requires Reaches(G, a, b) && a in S && b !in S
    ensures u in S && v !in S && HasEdge(G, u, v) && Reaches(G, a, u) && Reaches(G, v, b)
  {
    var p :| PathBetween(G, p, a, b);
    u, v := PathExit(G, S, p);
  }

  lemma ClosedReaches(G: Succ, S: set<Node>, a: Node, b: Node)
    requires Closed(G, S) && a in S && Reaches(G, a, b)
    ensures b in S
  {
    if b !in S {
      var u, v := ReachesExit(G, S, a, b);
    }
  }

  // ----- ranked graphs are acyclic -----

  lemma {:induction false} RankedPath(G: Succ, rank: map<Node, nat>, p: seq<Node>)
    requires Ranked(G, rank) && Path(G, p) && p[0] in rank
    ensures p[|p|-1] in rank && rank[p[|p|-1]] + |p| - 1 <= rank[p[0]]
  {
    if |p| > 1 {
      assert HasEdge(G, p[0], p[1]);
      RankedPath(G, rank, p[1..]);
    }
  }

  lemma RankedReaches(G: Succ, rank: map<Node, nat>, u: Node, v: Node)
    requires Ranked(G, rank) && u in rank && Reaches(G, u, v)
    ensures v in rank && rank[v] <= rank[u] && (u != v ==> rank[v] < rank[u])
  {
    var p :| PathBetween(G, p, u, v);
    RankedPath(G, rank, p);
  }

  lemma RankedAcyclic(G: Succ, rank: map<Node, nat>, n: Node)
    requires Ranked(G, rank) && n in rank
    ensures !ReachesCycle(G, n)
  {
    if ReachesCycle(G, n) {
      var m :| Reaches(G, n, m) && OnCycle(G, m);
      RankedReaches(G, rank, n, m);
      var k :| HasEdge(G, m, k) && Reaches(G, k, m);
      RankedReaches(G, rank, k, m);
    }
  }

  // ----- the forward graph -----

  // The targets of n's flows that are not back edges, in document order.
  function Keep(n: Node, outs: seq<Node>, back: set<Edge>): (kept: seq<Node>)
    ensures forall v {:trigger v in kept} :: v in kept <==> v in outs && Edge(n, v) !in back
    ensures |kept| <= |outs|
  {
    if outs == [] then []
    else if Edge(n, outs[0]) in back then Keep(n, outs[1..], back)
    else [outs[0]] + Keep(n, outs[1..], back)
  }

  function Forward(G: Succ, back: set<Edge>): (F: Succ)
    ensures forall u, v {:trigger HasEdge(F, u, v)} :: HasEdge(F, u, v) <==> HasEdge(G, u, v) && Edge(u, v) !in back
  {
    map n | n in G :: Keep(n, G[n], back)
  }

  lemma {:induction false} KeepSnoc(n: Node, outs: seq<Node>, v: Node, back: set<Edge>)
    ensures Keep(n, outs + [v], back) == Keep(n, outs, back) + if Edge(n, v) in back then [] else [v]
  {
    if outs != [] {
      KeepSnoc(n, outs[1..], v, back);
      assert (outs + [v])[1..] == outs[1..] + [v];
    }
  }

  // ----- graphs that agree on a closed part -----

  ghost predicate Agree(S: Succ, F: Succ, R: set<Node>) {
    Closed(S, R) && forall n :: n in R ==> Outs(S, n) == Outs(F, n)
  }

  lemma {:induction false} PathAgrees(S: Succ, F: Succ, R: set<Node>, p: seq<Node>)
    requires Agree(S, F, R) && p != [] && p[0] in R
    ensures Path(S, p) <==> Path(F, p)
    ensures Path(S, p) ==> p[|p|-1] in R
  {
    if |p| > 1 && HasEdge(S, p[0], p[1]) {
      PathAgrees(S, F, R, p[1..]);
    }
  }

  lemma ReachesAgrees(S: Succ, F: Succ, R: set<Node>, u: Node, v: Node)
    requires Agree(S, F, R) && u in R
    ensures Reaches(S, u, v) <==> Reaches(F, u, v)
  {
    if Reaches(S, u, v) {
      var p :| PathBetween(S, p, u, v);
      PathAgrees(S, F, R, p);
      assert PathBetween(F, p, u, v);
    }
    if Reaches(F, u, v) {
      var p :| PathBetween(F, p, u, v);
      PathAgrees(S, F, R, p);
      assert PathBetween(S, p, u, v);
    }
  }
}

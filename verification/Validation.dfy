/**
 * The structural passes of the validator: which nodes and flows each of them
 * reports, exactly, and what a process they all accept is worth.
 */
module Validation {
  import opened Wrappers
  import opened Graphs
  import opened Bpmn
  import opened Definitions
  import opened BackEdges
  import opened Joins
  import opened Tarjan
  import T = Traversal

  datatype Issue =
    | UnknownRef(flow: Edge)
    | DanglingNode(at: Node)
    | UnreachableNode(at: Node)
    | UnguardedLoop(at: Node)
    | CycleDetected(component: seq<Node>)
    | UnmatchedGateway(at: Node)
    | EndWithOutgoing(at: Node)
    | SplitWithoutGateway(at: Node)
    | BoundaryDefinitions(at: Node)

  // ----- flows and loose ends (process.go) -----

  predicate Known(g: Graph, f: Edge) {
    f.from in g.nodes && f.to in g.nodes
  }

  method ValidateSeqFlowRefs(d: Definition, g: Graph) returns (issues: seq<Issue>)
    ensures forall f :: UnknownRef(f) in issues <==> f in d.flows && !Known(g, f)
    ensures forall i :: i in issues ==> i.UnknownRef?
  {
    issues := [];
    for i := 0 to |d.flows|
      invariant forall f :: UnknownRef(f) in issues <==> f in d.flows[..i] && !Known(g, f)
      invariant forall i :: i in issues ==> i.UnknownRef?
    {
      assert d.flows[..i + 1] == d.flows[..i] + [d.flows[i]];
      if d.flows[i].from !in g.nodes {
        issues := issues + [UnknownRef(d.flows[i])];
      }
      if d.flows[i].to !in g.nodes {
        issues := issues + [UnknownRef(d.flows[i])];
      }
    }
    assert d.flows[..|d.flows|] == d.flows;
  }

  // No flow in, but for the implicit start, or no flow out.
  predicate Loose(g: Graph, n: Node, implicit: Option<Node>) {
    (Some(n) != implicit && Outs(g.incoming, n) == []) || Outs(g.outgoing, n) == []
  }

  predicate IsTaskLike(d: Definition, n: Node) {
    n in d.userTasks || n in d.sendTasks || n in d.receiveTasks || n in d.subProcesses || n in d.callActivities
  }

  predicate IsSplitLike(d: Definition, n: Node) {
    n in d.parallels || n in d.exclusives || n in d.inclusives
  }

  predicate LooseEvent(d: Definition, g: Graph, n: Node) {
    || (n in d.startEvents && Outs(g.outgoing, n) == [])
    || (n in d.endEvents && Outs(g.incoming, n) == [])
    || exists b | b in d.boundaries :: b.id == n && Outs(g.outgoing, n) == [] && !b.message
  }

  predicate Dangles(d: Definition, g: Graph, implicit: Option<Node>, n: Node) {
    || (IsTaskLike(d, n) && Loose(g, n, implicit))
    || (IsSplitLike(d, n) && Loose(g, n, None))
    || LooseEvent(d, g, n)
  }

  method CheckDangling(ids: seq<Node>, g: Graph, implicit: Option<Node>) returns (issues: seq<Issue>)
    ensures forall n :: DanglingNode(n) in issues <==> n in ids && Loose(g, n, implicit)
    ensures forall i :: i in issues ==> i.DanglingNode?
  {
    issues := [];
    for i := 0 to |ids|
      invariant forall n :: DanglingNode(n) in issues <==> n in ids[..i] && Loose(g, n, implicit)
      invariant forall i :: i in issues ==> i.DanglingNode?
    {
      assert ids[..i + 1] == ids[..i] + [ids[i]];
      if Some(ids[i]) != implicit && |Outs(g.incoming, ids[i])| == 0 {
        issues := issues + [DanglingNode(ids[i])];
      }
      if |Outs(g.outgoing, ids[i])| == 0 {
        issues := issues + [DanglingNode(ids[i])];
      }
    }
    assert ids[..|ids|] == ids;
  }

  method CheckEventDangling(d: Definition, g: Graph) returns (issues: seq<Issue>)
    ensures forall n :: DanglingNode(n) in issues <==> LooseEvent(d, g, n)
    ensures forall i :: i in issues ==> i.DanglingNode?
  {
    var starts := CheckEnds(d.startEvents, g.outgoing);
    var ends := CheckEnds(d.endEvents, g.incoming);
    var boundaries: seq<Issue> := [];
    for i := 0 to |d.boundaries|
      invariant forall n :: DanglingNode(n) in boundaries <==>
        exists j :: 0 <= j < i && d.boundaries[j].id == n && Outs(g.outgoing, n) == [] && !d.boundaries[j].message
      invariant forall i :: i in boundaries ==> i.DanglingNode?
    {
      if |Outs(g.outgoing, d.boundaries[i].id)| == 0 && !d.boundaries[i].message {
        boundaries := boundaries + [DanglingNode(d.boundaries[i].id)];
      }
    }
    issues := starts + ends + boundaries;
  }

  method CheckEnds(ids: seq<Node>, flows: Succ) returns (issues: seq<Issue>)
    ensures forall n :: DanglingNode(n) in issues <==> n in ids && Outs(flows, n) == []
    ensures forall i :: i in issues ==> i.DanglingNode?
  {
    issues := [];
    for i := 0 to |ids|
      invariant forall n :: DanglingNode(n) in issues <==> n in ids[..i] && Outs(flows, n) == []
      invariant forall i :: i in issues ==> i.DanglingNode?
    {
      assert ids[..i + 1] == ids[..i] + [ids[i]];
      if |Outs(flows, ids[i])| == 0 {
        issues := issues + [DanglingNode(ids[i])];
      }
    }
    assert ids[..|ids|] == ids;
  }

  method ValidateDanglingNodes(d: Definition, g: Graph, implicit: Option<Node>) returns (issues: seq<Issue>)
    ensures forall n :: DanglingNode(n) in issues <==> Dangles(d, g, implicit, n)
    ensures forall i :: i in issues ==> i.DanglingNode?
  {
    hide Loose, LooseEvent;
    var users := CheckDangling(d.userTasks, g, implicit);
    var sends := CheckDangling(d.sendTasks, g, implicit);
    var receives := CheckDangling(d.receiveTasks, g, implicit);
    var parallels := CheckDangling(d.parallels, g, None);
    var exclusives := CheckDangling(d.exclusives, g, None);
    var inclusives := CheckDangling(d.inclusives, g, None);
    var subs := CheckDangling(d.subProcesses, g, implicit);
    var calls := CheckDangling(d.callActivities, g, implicit);
    var events := CheckEventDangling(d, g);
    issues := users + sends + receives + parallels + exclusives + inclusives + subs + calls + events;
  }

  // ----- reachability (reachability.go) -----

  // Every node outside the stack's reach has its targets visited.
  ghost predicate Marking(G: Succ, start: Node, visited0: set<Node>, visited: set<Node>, stack: seq<Node>) {
    && visited0 <= visited
    && (forall n :: n in stack ==> Reaches(G, start, n))
    && (forall n :: n in visited && n !in visited0 ==> Reaches(G, start, n))
    && (forall u, v {:trigger HasEdge(G, u, v)} :: u in visited && HasEdge(G, u, v) ==> v in visited || v in stack)
  }

  lemma MarkOne(G: Succ, start: Node, visited0: set<Node>, visited: set<Node>, stack: seq<Node>, v: Node)
    requires Marking(G, start, visited0, visited, stack + [v])
    ensures Marking(G, start, visited0, visited + {v}, stack + Outs(G, v))
  {
    hide Reaches;
    assert v in stack + [v];
    forall n | n in stack + Outs(G, v)
      ensures Reaches(G, start, n)
    {
      if n in stack {
        assert n in stack + [v];
      } else {
        assert HasEdge(G, v, n);
        ReachesSnoc(G, start, v, n);
      }
    }
    forall a, b {:trigger HasEdge(G, a, b)} | a in visited + {v} && HasEdge(G, a, b)
      ensures b in visited + {v} || b in stack + Outs(G, v)
    {
      if a == v {
        assert b in Outs(G, v);
      }
    }
  }

  lemma MarkSeen(G: Succ, start: Node, visited0: set<Node>, visited: set<Node>, stack: seq<Node>, v: Node)
    requires Marking(G, start, visited0, visited, stack + [v]) && v in visited
    ensures Marking(G, start, visited0, visited, stack)
  {
    hide Reaches, HasEdge;
    forall n | n in stack
      ensures Reaches(G, start, n)
    {
      assert n in stack + [v];
    }
  }

  method MarkReachable(start: Node, G: Succ, visited0: set<Node>) returns (visited: set<Node>)
    requires Closed(G, visited0)
    ensures Closed(G, visited) && start in visited && visited0 <= visited
    ensures forall n :: n in visited && n !in visited0 ==> Reaches(G, start, n)
  {
    hide Reaches, HasEdge;
    visited := visited0;
    var stack := [start];
    ReachesSelf(G, start);
    ghost var universe := {start} + Targets(G);
    while |stack| > 0
      invariant Marking(G, start, visited0, visited, stack)
      invariant start in visited || start in stack
      invariant forall n :: n in stack ==> n in universe
      decreases universe - visited, |stack|
    {
      var v := stack[|stack|-1];
      var rest := stack[..|stack|-1];
      assert stack == rest + [v];
      if v in visited {
        MarkSeen(G, start, visited0, visited, rest, v);
        stack := rest;
        continue;
      }
      MarkOne(G, start, visited0, visited, rest, v);
      OutsAreTargets(G, v);
      visited := visited + {v};
      stack := rest + Outs(G, v);
    }
  }

  lemma OutsAreTargets(G: Succ, v: Node)
    ensures forall n :: n in Outs(G, v) ==> n in Targets(G)
  {
  }

  function BoundaryIds(bs: seq<Boundary>): (ids: seq<Node>)
    ensures |ids| == |bs| && forall i :: 0 <= i < |bs| ==> ids[i] == bs[i].id
  {
    seq(|bs|, i requires 0 <= i < |bs| => bs[i].id)
  }

  // Where searches start: the start, then every boundary event.
  function Roots(d: Definition, start: Node): seq<Node> {
    [start] + BoundaryIds(d.boundaries)
  }

  function StartOf(d: Definition, implicit: Option<Node>): Option<Node> {
    if d.startEvents != [] then Some(d.startEvents[0]) else implicit
  }

  predicate IsBoundaryNode(g: Graph, n: Node) {
    n in g.kind && IsBoundaryKind(g.kind[n])
  }

  method ValidateReachability(d: Definition, g: Graph, implicit: Option<Node>) returns (issues: seq<Issue>)
    ensures StartOf(d, implicit).None? ==> issues == []
    ensures StartOf(d, implicit).Some? ==>
              forall n :: UnreachableNode(n) in issues <==>
                n in g.nodes && !IsBoundaryNode(g, n)
                    && !ReachedFrom(g.outgoing, Roots(d, StartOf(d, implicit).value), n)
    ensures forall i :: i in issues ==> i.UnreachableNode?
  {
    hide Reaches, HasEdge;
    issues := [];
    if StartOf(d, implicit).None? {
      return;
    }
    var start := StartOf(d, implicit).value;
    ghost var roots := Roots(d, start);
    var visited := MarkReachable(start, g.outgoing, {});
    for i := 0 to |d.boundaries|
      invariant Closed(g.outgoing, visited)
      invariant forall j :: 0 <= j < i + 1 ==> roots[j] in visited
      invariant forall n :: n in visited ==> ReachedFrom(g.outgoing, roots, n)
    {
      assert roots[i + 1] == d.boundaries[i].id;
      visited := MarkReachable(d.boundaries[i].id, g.outgoing, visited);
    }
    VisitedExactly(g.outgoing, roots, visited);
    var rest := g.nodes;
    while rest != {}
      invariant rest <= g.nodes
      invariant forall n :: UnreachableNode(n) in issues <==>
                n in g.nodes - rest && !IsBoundaryNode(g, n) && n !in visited
      invariant forall i :: i in issues ==> i.UnreachableNode?
      decreases rest
    {
      var id :| id in rest;
      rest := rest - {id};
      if !IsBoundaryNode(g, id) && id !in visited {
        issues := issues + [UnreachableNode(id)];
      }
    }
  }

  lemma VisitedExactly(G: Succ, roots: seq<Node>, visited: set<Node>)
    requires Closed(G, visited) && forall j :: 0 <= j < |roots| ==> roots[j] in visited
    requires forall n :: n in visited ==> ReachedFrom(G, roots, n)
    ensures forall n :: n in visited <==> ReachedFrom(G, roots, n)
  {
    hide Reaches, Closed;
    forall n | ReachedFrom(G, roots, n)
      ensures n in visited
    {
      var r :| r in roots && Reaches(G, r, n);
      ClosedReaches(G, visited, r, n);
    }
  }

  /** ProcessBackEdges: the back edges a search from the start, then from every boundary event, finds. */
  method ProcessBackEdges(d: Definition, g: Graph, start: Node) returns (back: set<Edge>)
    ensures exists rank :: Classified(g.outgoing, Roots(d, start), back, rank)
  {
    hide Classified;
    back := ClassifyBackEdges(g.outgoing, Roots(d, start));
  }

  // ----- loops (loops.go) -----

  // A flow back must leave an exclusive gateway that also has a way on.
  predicate Unguarded(g: Graph, back: set<Edge>, e: Edge) {
    e.from == e.to || !HasKind(g, e.from, ExclusiveGateway) || ForwardOuts(g.outgoing, back, e.from) == []
  }

  predicate CanExit(g: Graph, n: Node) {
    HasKind(g, n, ExclusiveGateway) || HasKind(g, n, InclusiveGateway) || HasKind(g, n, ParallelGateway)
        || HasKind(g, n, ReceiveTask)
  }

  ghost predicate GuardedExit(g: Graph, c: set<Node>) {
    exists n, next {:trigger HasEdge(g.outgoing, n, next)} ::
      && n in c && n in g.kind && g.kind[n] in {ExclusiveGateway, InclusiveGateway, ParallelGateway, ReceiveTask}
      && HasEdge(g.outgoing, n, next) && next !in c
  }

  method FirstForward(n: Node, g: Graph, back: set<Edge>) returns (r: Option<Node>)
    ensures var fwd := ForwardOuts(g.outgoing, back, n); r == if fwd == [] then None else Some(fwd[0])
  {
    var outs := Outs(g.outgoing, n);
    for i := 0 to |outs|
      invariant Keep(n, outs, back) == Keep(n, outs[i..], back)
    {
      assert outs[i..][1..] == outs[i + 1..];
      if Edge(n, outs[i]) !in back {
        return Some(outs[i]);
      }
    }
    return None;
  }

  method SccHasGuardedExit(scc: seq<Node>, g: Graph) returns (b: bool)
    ensures b <==> GuardedExit(g, Elems(scc))
  {
    var inScc := Elems(scc);
    for i := 0 to |scc|
      invariant forall n, next {:trigger HasEdge(g.outgoing, n, next)} ::
        n in scc[..i] && CanExit(g, n) && HasEdge(g.outgoing, n, next) ==> next in inScc
    {
      hide HasEdge;
      assert scc[..i + 1] == scc[..i] + [scc[i]];
      if CanExit(g, scc[i]) {
        var left := LeavesFrom(g.outgoing, scc[i], inScc);
        if left {
          return true;
        }
      }
    }
    assert scc[..|scc|] == scc;
    return false;
  }

  method LeavesFrom(G: Succ, n: Node, c: set<Node>) returns (b: bool)
    ensures b <==> exists next {:trigger HasEdge(G, n, next)} :: HasEdge(G, n, next) && next !in c
  {
    var outs := Outs(G, n);
    for i := 0 to |outs|
      invariant forall j :: 0 <= j < i ==> outs[j] in c
    {
      if outs[i] !in c {
        assert HasEdge(G, n, outs[i]);
        return true;
      }
    }
    return false;
  }

  method ValidateBackEdges(g: Graph, back: set<Edge>) returns (issues: seq<Issue>)
    ensures forall n :: UnguardedLoop(n) in issues <==> exists e :: e in back && e.from == n && Unguarded(g, back, e)
    ensures forall i :: i in issues ==> i.UnguardedLoop?
  {
    issues := [];
    var rest := back;
    while rest != {}
      invariant rest <= back
      invariant forall n :: UnguardedLoop(n) in issues <==>
                exists e :: e in back - rest && e.from == n && Unguarded(g, back, e)
      invariant forall i :: i in issues ==> i.UnguardedLoop?
      decreases rest
    {
      var e :| e in rest;
      ghost var done := back - rest;
      rest := rest - {e};
      assert back - rest == done + {e};
      if e.from == e.to || !HasKind(g, e.from, ExclusiveGateway) {
        issues := issues + [UnguardedLoop(e.from)];
        continue;
      }
      var first := FirstForward(e.from, g, back);
      if first.None? {
        issues := issues + [UnguardedLoop(e.from)];
      }
    }
    assert back - rest == back;
  }

  // A component of two nodes or more, met from the graph's nodes, that no branching node leaves.
  ghost predicate TrapsToken(g: Graph, c: set<Node>) {
    && IsComponent(g.outgoing, c) && !GuardedExit(g, c)
    && exists a, b :: a in c && b in c && a != b && FromRoots(g.outgoing, g.nodes, {a})
  }

  method ValidateLoops(g: Graph, back: set<Edge>) returns (issues: seq<Issue>)
    ensures forall n :: UnguardedLoop(n) in issues <==> exists e :: e in back && e.from == n && Unguarded(g, back, e)
    ensures forall c :: CycleDetected(c) in issues ==> TrapsToken(g, Elems(c))
    ensures forall c :: TrapsToken(g, c) ==> exists s :: CycleDetected(s) in issues && Elems(s) == c
    ensures forall i :: i in issues ==> i.UnguardedLoop? || i.CycleDetected?
  {
    hide Components, GuardedExit, IsComponent, FromRoots, Closed, Unguarded;
    issues := ValidateBackEdges(g, back);
    ghost var before := issues;
    var sccs := TarjanSCC(g.outgoing, g.nodes);
    for i := 0 to |sccs|
      invariant forall n :: UnguardedLoop(n) in issues <==> UnguardedLoop(n) in before
      invariant forall c :: CycleDetected(c) in issues <==>
                exists j :: 0 <= j < i && sccs[j] == c && |c| > 1 && !GuardedExit(g, Elems(c))
      invariant forall i :: i in issues ==> i.UnguardedLoop? || i.CycleDetected?
    {
      if |sccs[i]| <= 1 {
        continue;
      }
      var guarded := SccHasGuardedExit(sccs[i], g);
      if !guarded {
        issues := issues + [CycleDetected(sccs[i])];
      }
    }
    forall c | CycleDetected(c) in issues
      ensures TrapsToken(g, Elems(c))
    {
      var j :| 0 <= j < |sccs| && sccs[j] == c && |c| > 1 && !GuardedExit(g, Elems(c));
      LargeTraps(g, sccs, j);
    }
    forall c | TrapsToken(g, c)
      ensures exists s :: CycleDetected(s) in issues && Elems(s) == c
    {
      var j := TrapListed(g, sccs, c);
      assert CycleDetected(sccs[j]) in issues;
    }
  }

  lemma LargeTraps(g: Graph, sccs: seq<seq<Node>>, j: nat)
    requires Components(g.outgoing, sccs) && FromRoots(g.outgoing, g.nodes, Members(sccs))
    requires j < |sccs| && |sccs[j]| > 1 && !GuardedExit(g, Elems(sccs[j]))
    ensures TrapsToken(g, Elems(sccs[j]))
  {
    hide Components, GuardedExit, IsComponent, Reaches;
    EachComponent(g.outgoing, sccs, j);
    var a, b := sccs[j][0], sccs[j][1];
    ListedMembers(sccs, j, a);
    assert a in Elems(sccs[j]) && b in Elems(sccs[j]) && a != b && FromRoots(g.outgoing, g.nodes, {a});
  }

  lemma TrapListed(g: Graph, sccs: seq<seq<Node>>, c: set<Node>) returns (j: nat)
    requires Components(g.outgoing, sccs) && g.nodes <= Members(sccs) && Closed(g.outgoing, Members(sccs))
             && TrapsToken(g, c)
    ensures j < |sccs| && |sccs[j]| > 1 && Elems(sccs[j]) == c && !GuardedExit(g, Elems(sccs[j]))
  {
    hide Components, GuardedExit, Reaches, Closed;
    var a, b :| a in c && b in c && a != b && FromRoots(g.outgoing, g.nodes, {a});
    assert a in {a};
    var r :| r in g.nodes && Reaches(g.outgoing, r, a);
    ClosedReaches(g.outgoing, Members(sccs), r, a);
    j := InMembers(sccs, a);
    EachComponent(g.outgoing, sccs, j);
    SameComponent(g.outgoing, Elems(sccs[j]), c, a);
    assert b in Elems(sccs[j]);
  }

  lemma SameComponent(G: Succ, c: set<Node>, c': set<Node>, a: Node)
    requires IsComponent(G, c) && IsComponent(G, c') && a in c && a in c'
    ensures c == c'
  {
    hide Reaches;
  }

  // ----- gateways (gateway_matching.go) -----

  ghost predicate BranchesEnd(g: Graph, back: set<Edge>, n: Node) {
    forall m :: m in ForwardOuts(g.outgoing, back, n) ==> ReachesEnd(Forward(g.outgoing, back), g, m)
  }

  // A split that meets no cycle left unbroken and whose branches neither join nor, if exclusive, all end.
  ghost predicate Unmatched(g: Graph, back: set<Edge>, n: Node, exclusive: bool) {
    && |ForwardOuts(g.outgoing, back, n)| >= 2
    && !ReachesCycle(Forward(g.outgoing, back), n)
    && T.JoinAt(g.outgoing, back, n).None?
    && !(exclusive && BranchesEnd(g, back, n))
  }

  method CheckSplitJoin(n: Node, exclusive: bool, g: Graph, back: set<Edge>, joins: JoinIndex) returns (bad: bool)
    requires joins.Valid() && joins.g == g && joins.back == back
    ensures bad <==> Unmatched(g, back, n, exclusive)
  {
    hide JoinOf, ReachesCycle, ReachesEnd, T.JoinAt;
    var count := ForwardCount(g.outgoing, back, n);
    if count <= 1 {
      return false;
    }
    var cyclic := joins.ReachesUnbrokenCycle(n);
    if cyclic {
      return false;
    }
    var join := joins.Find(n);
    JoinUnique(g.outgoing, back, n, join, T.JoinAt(g.outgoing, back, n));
    if join.Some? {
      return false;
    }
    if exclusive {
      var all := AllBranchesTerminate(n, g, back, joins);
      return !all;
    }
    return true;
  }

  method AllBranchesTerminate(n: Node, g: Graph, back: set<Edge>, joins: JoinIndex) returns (all: bool)
    requires joins.Valid() && joins.g == g && joins.back == back
    ensures all <==> BranchesEnd(g, back, n)
  {
    hide ReachesEnd;
    var outs := Outs(g.outgoing, n);
    for i := 0 to |outs|
      invariant forall j :: 0 <= j < i && Edge(n, outs[j]) !in back ==>
                ReachesEnd(Forward(g.outgoing, back), g, outs[j])
    {
      if Edge(n, outs[i]) in back {
        continue;
      }
      assert HasEdge(Forward(g.outgoing, back), n, outs[i]);
      var ends := joins.ReachesEndEvent(outs[i]);
      if !ends {
        assert outs[i] in ForwardOuts(g.outgoing, back, n);
        return false;
      }
    }
    return true;
  }

  method CheckSplits(ids: seq<Node>, exclusive: bool, g: Graph, back: set<Edge>,
                     joins: JoinIndex) returns (issues: seq<Issue>)
    requires joins.Valid() && joins.g == g && joins.back == back
    ensures forall n :: UnmatchedGateway(n) in issues <==> n in ids && Unmatched(g, back, n, exclusive)
    ensures forall i :: i in issues ==> i.UnmatchedGateway?
  {
    hide Unmatched;
    issues := [];
    for i := 0 to |ids|
      invariant forall n :: UnmatchedGateway(n) in issues <==> n in ids[..i] && Unmatched(g, back, n, exclusive)
      invariant forall i :: i in issues ==> i.UnmatchedGateway?
    {
      assert ids[..i + 1] == ids[..i] + [ids[i]];
      var bad := CheckSplitJoin(ids[i], exclusive, g, back, joins);
      if bad {
        issues := issues + [UnmatchedGateway(ids[i])];
      }
    }
    assert ids[..|ids|] == ids;
  }

  ghost predicate UnmatchedIn(d: Definition, g: Graph, back: set<Edge>, n: Node) {
    || ((n in d.parallels || n in d.inclusives) && Unmatched(g, back, n, false))
    || (n in d.exclusives && Unmatched(g, back, n, true))
  }

  method ValidateGatewayMatching(d: Definition, g: Graph, back: set<Edge>) returns (issues: seq<Issue>)
    ensures forall n :: UnmatchedGateway(n) in issues <==> UnmatchedIn(d, g, back, n)
    ensures forall i :: i in issues ==> i.UnmatchedGateway?
  {
    hide Unmatched;
    var joins := new JoinIndex(g, back);
    var parallels := CheckSplits(d.parallels, false, g, back, joins);
    var exclusives := CheckSplits(d.exclusives, true, g, back, joins);
    var inclusives := CheckSplits(d.inclusives, false, g, back, joins);
    issues := parallels + exclusives + inclusives;
  }

  // ----- one way out (single_outgoing.go) -----

  predicate OneOutgoing(k: Kind) {
    k.StartEvent? || k.UserTask? || k.SendTask? || k.ReceiveTask? || k.SubProcess? || k.CallActivity?
  }

  method SingleOutgoingErrors(g: Graph, back: set<Edge>) returns (issues: seq<Issue>)
    ensures forall n :: EndWithOutgoing(n) in issues <==> IsEnd(g, n) && ForwardOuts(g.outgoing, back, n) != []
    ensures forall n :: SplitWithoutGateway(n) in issues <==>
              && n in g.kind && |ForwardOuts(g.outgoing, back, n)| > 1
              && g.kind[n] in {StartEvent, UserTask, SendTask, ReceiveTask, SubProcess, CallActivity}
    ensures forall i :: i in issues ==> i.EndWithOutgoing? || i.SplitWithoutGateway?
  {
    issues := [];
    var rest := g.kind.Keys;
    while rest != {}
      invariant rest <= g.kind.Keys
      invariant forall n :: EndWithOutgoing(n) in issues <==>
                n !in rest && IsEnd(g, n) && ForwardOuts(g.outgoing, back, n) != []
      invariant forall n :: SplitWithoutGateway(n) in issues <==>
        n in g.kind && n !in rest && OneOutgoing(g.kind[n]) && |ForwardOuts(g.outgoing, back, n)| > 1
      invariant forall i :: i in issues ==> i.EndWithOutgoing? || i.SplitWithoutGateway?
      decreases rest
    {
      hide ForwardOuts;
      var id :| id in rest;
      rest := rest - {id};
      var count := ForwardCount(g.outgoing, back, id);
      if g.kind[id] == EndEvent {
        if count > 0 {
          issues := issues + [EndWithOutgoing(id)];
        }
      } else if OneOutgoing(g.kind[id]) && count > 1 {
        issues := issues + [SplitWithoutGateway(id)];
      }
    }
  }

  // ----- boundary events (boundary.go) -----

  // A timer, an error or a message, and no two of them.
  predicate OneDefinition(b: Boundary) {
    if b.timer then !b.error && !b.message else b.error != b.message
  }

  predicate SplitBoundary(g: Graph, back: set<Edge>, b: Boundary) {
    OneDefinition(b) && |ForwardOuts(g.outgoing, back, b.id)| > 1
  }

  method ValidateBoundaryEvents(d: Definition, g: Graph, back: set<Edge>) returns (issues: seq<Issue>)
    ensures forall n :: BoundaryDefinitions(n) in issues <==>
            exists b :: b in d.boundaries && b.id == n && !OneDefinition(b)
    ensures forall n :: SplitWithoutGateway(n) in issues <==>
            exists b :: b in d.boundaries && b.id == n && SplitBoundary(g, back, b)
    ensures forall i :: i in issues ==> i.BoundaryDefinitions? || i.SplitWithoutGateway?
  {
    hide ForwardOuts;
    issues := [];
    for i := 0 to |d.boundaries|
      invariant forall n :: BoundaryDefinitions(n) in issues <==>
        exists b :: b in d.boundaries[..i] && b.id == n && !OneDefinition(b)
      invariant forall n :: SplitWithoutGateway(n) in issues <==>
        exists b :: b in d.boundaries[..i] && b.id == n && SplitBoundary(g, back, b)
      invariant forall i :: i in issues ==> i.BoundaryDefinitions? || i.SplitWithoutGateway?
    {
      var b := d.boundaries[i];
      assert d.boundaries[..i + 1] == d.boundaries[..i] + [b];
      var definitions := (if b.timer then 1 else 0) + (if b.error then 1 else 0) + (if b.message then 1 else 0);
      if definitions != 1 {
        issues := issues + [BoundaryDefinitions(b.id)];
        continue;
      }
      var count := ForwardCount(g.outgoing, back, b.id);
      if count > 1 {
        issues := issues + [SplitWithoutGateway(b.id)];
      }
    }
    assert d.boundaries[..|d.boundaries|] == d.boundaries;
  }
}

/**
 * What acceptance is worth: a process every structural pass accepts can always
 * complete, never fails to compile for want of a join, and its plan means its graph.
 */
module Acceptance {
  import opened Wrappers
  import opened Graphs
  import opened Bpmn
  import opened Definitions
  import opened BackEdges
  import opened Joins
  import opened Tarjan
  import opened Languages
  import opened Plans
  import T = Traversal
  import opened PathLanguage
  import opened PlanMeaning
  import E = EarlyEnds
  import S = Spine
  import opened QuietEnds
  import G = Segments
  import opened Validation
  import opened Depth

  // ----- clean passes -----

  ghost predicate FlowsKnown(d: Definition, g: Graph) {
    forall f :: f in d.flows ==> Known(g, f)
  }

  ghost predicate NothingDangles(d: Definition, g: Graph, implicit: Option<Node>) {
    forall n :: !Dangles(d, g, implicit, n)
  }

  ghost predicate AllReached(d: Definition, g: Graph, start: Node) {
    forall n :: n in g.nodes && !IsBoundaryNode(g, n) ==> ReachedFrom(g.outgoing, Roots(d, start), n)
  }

  ghost predicate LoopsGuarded(g: Graph, back: set<Edge>) {
    forall e :: e in back ==> !Unguarded(g, back, e)
  }

  ghost predicate GatewaysMatched(d: Definition, g: Graph, back: set<Edge>) {
    forall n :: !UnmatchedIn(d, g, back, n)
  }

  ghost predicate SingleExits(g: Graph, back: set<Edge>) {
    && (forall n :: IsEnd(g, n) ==> ForwardOuts(g.outgoing, back, n) == [])
    && (forall n ::
          n in g.kind && g.kind[n] in {StartEvent, UserTask, SendTask, ReceiveTask, SubProcess, CallActivity} ==>
            |ForwardOuts(g.outgoing, back, n)| <= 1)
  }

  ghost predicate NoTraps(g: Graph) {
    forall c :: !TrapsToken(g, c)
  }

  ghost predicate BoundariesSound(d: Definition, g: Graph, back: set<Edge>) {
    forall b :: b in d.boundaries ==> OneDefinition(b) && !SplitBoundary(g, back, b)
  }

  /** No structural pass reports anything. */
  ghost predicate Clean(d: Definition, g: Graph, back: set<Edge>, implicit: Option<Node>) {
    && StartOf(d, implicit).Some? && !TooDeep(g.outgoing, back, StartOf(d, implicit).value)
    && FlowsKnown(d, g) && NothingDangles(d, g, implicit) && AllReached(d, g, StartOf(d, implicit).value)
    && LoopsGuarded(g, back) && GatewaysMatched(d, g, back) && SingleExits(g, back) && NoTraps(g)
    && BoundariesSound(d, g, back)
  }

  ghost predicate Classifies(d: Definition, g: Graph, back: set<Edge>, implicit: Option<Node>) {
    match StartOf(d, implicit)
    case Some(start) => exists rank :: Classified(g.outgoing, Roots(d, start), back, rank)
    case None => back == {}
  }

  /** The structural passes one after the other, on the graph built and the back edges found. */
  method Validate(d: Definition, implicit: Option<Node>) returns (g: Graph, back: set<Edge>, clean: bool)
    ensures Built(d, g) && Classifies(d, g, back, implicit)
    ensures clean <==> Clean(d, g, back, implicit)
  {
    hide Built, Dangles, ReachedFrom, Roots, Unguarded, UnmatchedIn, ForwardOuts, TrapsToken, TooDeep, Ranked;
    g := BuildGraph(d);
    back := {};
    var start := StartOf(d, implicit);
    if start.None? {
      return g, back, false;
    }
    back := ProcessBackEdges(d, g, start.value);
    ghost var rank :| Classified(g.outgoing, Roots(d, start.value), back, rank);
    StartRanked(d, g, back, start.value, rank);
    var tooDeep, depth := ValidateMaxDepth(g.outgoing, back, start.value, rank);
    if tooDeep {
      return g, back, false;
    }
    var refs := ValidateSeqFlowRefs(d, g);
    var dangling := ValidateDanglingNodes(d, g, implicit);
    var unreachable := ValidateReachability(d, g, implicit);
    var loops := ValidateLoops(g, back);
    var gateways := ValidateGatewayMatching(d, g, back);
    var exits := SingleOutgoingErrors(g, back);
    var boundaries := ValidateBoundaryEvents(d, g, back);
    assert |refs| == 0 <==> FlowsKnown(d, g) by { assert |refs| > 0 ==> refs[0] in refs; }
    assert |dangling| == 0 <==> NothingDangles(d, g, implicit) by { assert |dangling| > 0 ==> dangling[0] in dangling; }
    assert |unreachable| == 0 <==>
           AllReached(d, g, start.value) by { assert |unreachable| > 0 ==> unreachable[0] in unreachable; }
    assert |loops| == 0 <==> LoopsGuarded(g, back) && NoTraps(g) by { LoopsClean(g, back, loops); }
    assert |gateways| == 0 <==> GatewaysMatched(d, g, back) by { assert |gateways| > 0 ==> gateways[0] in gateways; }
    assert |exits| == 0 <==> SingleExits(g, back) by { ExitsClean(g, back, exits); }
    assert |boundaries| == 0 <==> BoundariesSound(d, g, back) by { BoundariesClean(d, g, back, boundaries); }
    clean := |refs| == 0 && |dangling| == 0 && |unreachable| == 0 && |loops| == 0 && |gateways| == 0 && |exits| == 0
        && |boundaries| == 0;
  }

  lemma StartRanked(d: Definition, g: Graph, back: set<Edge>, start: Node, rank: map<Node, nat>)
    requires Classified(g.outgoing, Roots(d, start), back, rank)
    ensures Ranked(Forward(g.outgoing, back), rank) && start in rank
  {
    hide Ranked, Reaches, ClosesForwardCycle;
    assert Roots(d, start)[0] == start;
    ReachesSelf(g.outgoing, start);
    assert ReachedFrom(g.outgoing, Roots(d, start), start);
  }

  lemma LoopsClean(g: Graph, back: set<Edge>, issues: seq<Issue>)
    requires forall n :: UnguardedLoop(n) in issues <==> exists e :: e in back && e.from == n && Unguarded(g, back, e)
    requires forall c :: CycleDetected(c) in issues ==> TrapsToken(g, Elems(c))
    requires forall c :: TrapsToken(g, c) ==> exists s :: CycleDetected(s) in issues && Elems(s) == c
    requires forall i :: i in issues ==> i.UnguardedLoop? || i.CycleDetected?
    ensures |issues| == 0 <==> LoopsGuarded(g, back) && NoTraps(g)
  {
    hide Unguarded, TrapsToken;
    if |issues| > 0 {
      assert issues[0] in issues;
    } else {
      forall e | e in back
        ensures !Unguarded(g, back, e)
      {
        assert UnguardedLoop(e.from) !in issues;
      }
    }
  }

  lemma ExitsClean(g: Graph, back: set<Edge>, issues: seq<Issue>)
    requires forall n :: EndWithOutgoing(n) in issues <==> IsEnd(g, n) && ForwardOuts(g.outgoing, back, n) != []
    requires forall n :: SplitWithoutGateway(n) in issues <==>
               && n in g.kind && |ForwardOuts(g.outgoing, back, n)| > 1
               && g.kind[n] in {StartEvent, UserTask, SendTask, ReceiveTask, SubProcess, CallActivity}
    requires forall i :: i in issues ==> i.EndWithOutgoing? || i.SplitWithoutGateway?
    ensures |issues| == 0 <==> SingleExits(g, back)
  {
    hide ForwardOuts;
    if |issues| > 0 {
      assert issues[0] in issues;
    } else {
      forall n
        ensures IsEnd(g, n) ==> ForwardOuts(g.outgoing, back, n) == []
        ensures n in g.kind && g.kind[n] in {StartEvent, UserTask, SendTask, ReceiveTask, SubProcess, CallActivity} ==>
                  |ForwardOuts(g.outgoing, back, n)| <= 1
      {
        assert EndWithOutgoing(n) !in issues && SplitWithoutGateway(n) !in issues;
      }
    }
  }

  lemma BoundariesClean(d: Definition, g: Graph, back: set<Edge>, issues: seq<Issue>)
    requires forall n :: BoundaryDefinitions(n) in issues <==>
             exists b :: b in d.boundaries && b.id == n && !OneDefinition(b)
    requires forall n :: SplitWithoutGateway(n) in issues <==>
             exists b :: b in d.boundaries && b.id == n && SplitBoundary(g, back, b)
    requires forall i :: i in issues ==> i.BoundaryDefinitions? || i.SplitWithoutGateway?
    ensures |issues| == 0 <==> BoundariesSound(d, g, back)
  {
    hide SplitBoundary, OneDefinition;
    if |issues| > 0 {
      assert issues[0] in issues;
    } else {
      forall b | b in d.boundaries
        ensures OneDefinition(b) && !SplitBoundary(g, back, b)
      {
        assert BoundaryDefinitions(b.id) !in issues && SplitWithoutGateway(b.id) !in issues;
      }
    }
  }

  // ----- option to complete -----

  // The passes that make every node able to go on: all but the gateway and exit checks.
  ghost predicate GoesOn(d: Definition, g: Graph, back: set<Edge>, implicit: Option<Node>, start: Node,
                         rank: map<Node, nat>) {
    && Built(d, g) && Classified(g.outgoing, Roots(d, start), back, rank)
    && FlowsKnown(d, g) && NothingDangles(d, g, implicit) && AllReached(d, g, start) && LoopsGuarded(g, back)
  }

  lemma NodesRanked(d: Definition, g: Graph, back: set<Edge>, start: Node, rank: map<Node, nat>)
    requires Built(d, g) && Classified(g.outgoing, Roots(d, start), back, rank) && AllReached(d, g, start)
    ensures g.nodes <= rank.Keys
  {
    hide Reaches, Ranked, ClosesForwardCycle, Built, Roots, ReachedFrom;
    forall n | n in g.nodes
      ensures n in rank
    {
      if IsBoundaryNode(g, n) {
        BoundaryIsRoot(d, g, start, n);
      }
    }
  }

  lemma BoundaryIsRoot(d: Definition, g: Graph, start: Node, n: Node)
    requires Built(d, g) && IsBoundaryNode(g, n)
    ensures ReachedFrom(g.outgoing, Roots(d, start), n)
  {
    hide Reaches, Outs;
    assert Declares(d, n, g.kind[n]);
    var b :| b in d.boundaries && b.id == n;
    var i :| 0 <= i < |d.boundaries| && d.boundaries[i] == b;
    assert Roots(d, start)[i + 1] == n;
    ReachesSelf(g.outgoing, n);
  }

  // Where the run may end: an end event, or a message boundary that leads nowhere.
  ghost predicate Completes(d: Definition, g: Graph, e: Node) {
    e in d.endEvents || exists b :: b in d.boundaries && b.id == e && b.message && Outs(g.outgoing, e) == []
  }

  lemma LooseCompletes(d: Definition, g: Graph, implicit: Option<Node>, n: Node)
    requires Built(d, g) && NothingDangles(d, g, implicit) && n in g.nodes && Outs(g.outgoing, n) == []
    ensures Completes(d, g, n)
  {
    assert Declares(d, n, g.kind[n]);
    assert !Dangles(d, g, implicit, n);
  }

  lemma SomeForward(g: Graph, back: set<Edge>, n: Node)
    requires LoopsGuarded(g, back) && Outs(g.outgoing, n) != []
    ensures ForwardOuts(g.outgoing, back, n) != []
  {
    var m := Outs(g.outgoing, n)[0];
    if Edge(n, m) in back {
      assert !Unguarded(g, back, Edge(n, m));
    } else {
      assert m in ForwardOuts(g.outgoing, back, n);
    }
  }

  lemma ForwardStep(g: Graph, back: set<Edge>, rank: map<Node, nat>, n: Node, m: Node)
    requires Ranked(Forward(g.outgoing, back), rank) && n in rank && m in ForwardOuts(g.outgoing, back, n)
    ensures HasEdge(Forward(g.outgoing, back), n, m) && HasEdge(g.outgoing, n, m) && m in rank && rank[m] < rank[n]
  {
    assert HasEdge(Forward(g.outgoing, back), n, m);
  }

  /**
   * Option to complete: every node has a forward path to an end event, or to a
   * message boundary event without outgoing flow.
   */
  lemma {:induction false} OptionToComplete(d: Definition, g: Graph, back: set<Edge>, implicit: Option<Node>,
                                            start: Node, rank: map<Node, nat>, n: Node)
    requires GoesOn(d, g, back, implicit, start, rank) && n in g.nodes
    ensures n in rank && exists e :: Reaches(Forward(g.outgoing, back), n, e) && Completes(d, g, e)
    decreases if n in rank then rank[n] else 0
  {
    hide Reaches, Built, ReachedFrom, Roots, LoopsGuarded, NothingDangles, AllReached, Completes, ClosesForwardCycle,
         ForwardOuts, HasEdge, Ranked;
    NodesRanked(d, g, back, start, rank);
    if Outs(g.outgoing, n) == [] {
      LooseCompletes(d, g, implicit, n);
      ReachesSelf(Forward(g.outgoing, back), n);
    } else {
      SomeForward(g, back, n);
      var m := ForwardOuts(g.outgoing, back, n)[0];
      ForwardStep(g, back, rank, n, m);
      EdgesAreFlows(d, g, n, m);
      assert Known(g, Edge(n, m));
      OptionToComplete(d, g, back, implicit, start, rank, m);
      var e :| Reaches(Forward(g.outgoing, back), m, e) && Completes(d, g, e);
      ReachesStep(Forward(g.outgoing, back), n, m, e);
    }
  }

  // ----- the component check adds nothing -----

  lemma {:induction false} Lowest(rank: map<Node, nat>, c: set<Node>) returns (m: Node)
    requires c != {} && c <= rank.Keys
    ensures m in c && forall n :: n in c ==> rank[m] <= rank[n]
    decreases |c|
  {
    m :| m in c;
    if c != {m} {
      var k := Lowest(rank, c - {m});
      m := if rank[k] < rank[m] then k else m;
    }
  }

  // Within a component of several nodes, each has a flow to another one of it.
  lemma InnerFlow(G: Succ, c: set<Node>, m: Node, x: Node) returns (w: Node)
    requires IsComponent(G, c) && m in c && x in c && x != m
    ensures HasEdge(G, m, w) && w in c
  {
    hide HasEdge, Reaches;
    w := ReachesFirst(G, m, x);
    ReachesTrans(G, w, x, m);
    ReachesEdge(G, m, w);
  }

  lemma ComponentRanked(G: Succ, back: set<Edge>, rank: map<Node, nat>, roots: seq<Node>, nodes: set<Node>,
                        c: set<Node>, a: Node)
    requires Classified(G, roots, back, rank) && nodes <= rank.Keys && IsComponent(G, c) && a in c
             && FromRoots(G, nodes, {a})
    ensures c <= rank.Keys
  {
    hide Ranked, ClosesForwardCycle, Reaches;
    assert a in {a};
    var r :| r in nodes && Reaches(G, r, a);
    assert ReachedFrom(G, roots, r);
    var root :| root in roots && Reaches(G, root, r);
    forall n | n in c
      ensures n in rank
    {
      ReachesTrans(G, r, a, n);
      ReachesTrans(G, root, r, n);
    }
  }

  /**
   * The lowest node of a component sends its inner flow back, so it is an
   * exclusive gateway whose way on leaves the component: no cycle is ever reported.
   */
  lemma NoTrapsLeft(d: Definition, g: Graph, back: set<Edge>, start: Node, rank: map<Node, nat>)
    requires Built(d, g) && Classified(g.outgoing, Roots(d, start), back, rank) && AllReached(d, g, start)
             && LoopsGuarded(g, back)
    ensures NoTraps(g)
  {
    hide Built, ReachedFrom, Roots, AllReached, ClosesForwardCycle, ForwardOuts, HasEdge, Reaches, Ranked, FromRoots,
         IsComponent;
    NodesRanked(d, g, back, start, rank);
    forall c | TrapsToken(g, c)
      ensures false
    {
      var a, b :| a in c && b in c && a != b && FromRoots(g.outgoing, g.nodes, {a});
      ComponentRanked(g.outgoing, back, rank, Roots(d, start), g.nodes, c, a);
      var m := Lowest(rank, c);
      var w := InnerFlow(g.outgoing, c, m, if m == a then b else a);
      LowestGoesBack(g, back, rank, c, m, w);
    }
  }

  lemma LowestGoesBack(g: Graph, back: set<Edge>, rank: map<Node, nat>, c: set<Node>, m: Node, w: Node)
    requires Ranked(Forward(g.outgoing, back), rank) && LoopsGuarded(g, back)
    requires c <= rank.Keys && m in c && w in c && HasEdge(g.outgoing, m, w)
    requires forall n :: n in c ==> rank[m] <= rank[n]
    ensures GuardedExit(g, c)
  {
    assert HasEdge(Forward(g.outgoing, back), m, w) <==> Edge(m, w) !in back;
    assert !Unguarded(g, back, Edge(m, w));
    var f := ForwardOuts(g.outgoing, back, m)[0];
    ForwardStep(g, back, rank, m, f);
    assert f !in c && CanExit(g, m);
  }

  // ----- gateways always find their joins -----

  lemma GatewaysTotal(d: Definition, p: T.Process, start: Node, rank: map<Node, nat>)
    requires Built(d, p.g) && Classified(p.g.outgoing, Roots(d, start), p.back, rank)
    requires AllReached(d, p.g, start) && GatewaysMatched(d, p.g, p.back)
    ensures T.SplitsMatched(p)
  {
    hide Reaches, ClosesForwardCycle, ReachesCycle, T.JoinAt, Ranked, ForwardOuts, Roots, ReachedFrom, AllReached,
         BranchesEnd;
    NodesRanked(d, p.g, p.back, start, rank);
    forall n | T.Balanced(p, n) && |T.Nexts(p, n)| >= 2
      ensures T.JoinAt(p.g.outgoing, p.back, n).Some?
    {
      assert Declares(d, n, p.g.kind[n]);
      assert !UnmatchedIn(d, p.g, p.back, n);
      RankedAcyclic(Forward(p.g.outgoing, p.back), rank, n);
    }
  }

  // ----- accepted processes -----

  // Only tasks can sit in a lane that is ignored (SkippedTasks).
  ghost predicate SkipsTasks(p: T.Process) {
    forall n :: n in p.skipped ==>
        HasKind(p.g, n, UserTask) || HasKind(p.g, n, SendTask) || HasKind(p.g, n, ReceiveTask)
  }

  // An implicit start is a node that is no start, boundary or end event (FindImplicitStart).
  ghost predicate StartsRightly(d: Definition, p: T.Process, implicit: Option<Node>) {
    && p.start == (if d.startEvents == [] then None else Some(d.startEvents[0]))
    && (p.start.None? ==>
          && implicit.Some? && implicit.value in p.g.nodes
          && !IsBoundaryNode(p.g, implicit.value) && !HasKind(p.g, implicit.value, StartEvent))
  }

  /** A process every structural pass accepts. */
  ghost predicate Accepted(d: Definition, p: T.Process, implicit: Option<Node>, rank: map<Node, nat>) {
    && Built(d, p.g) && Clean(d, p.g, p.back, implicit)
    && Classified(p.g.outgoing, Roots(d, StartOf(d, implicit).value), p.back, rank)
    && SkipsTasks(p) && StartsRightly(d, p, implicit)
  }

  /** Ahead of the entry nothing returns at once but inside branches that lose nothing by it. */
  ghost predicate EntryQuiet(p: T.Process, bodies: T.Bodies, implicit: Option<Node>) {
    Entry(p, implicit).Some? ==> QuietFrom(p, bodies, Entry(p, implicit).value)
  }

  ghost predicate AcceptedBody(q: T.Process) {
    exists d, rank :: Accepted(d, q, None, rank)
  }

  lemma FlowsToKnown(d: Definition, g: Graph, back: set<Edge>, n: Node, m: Node)
    requires Built(d, g) && FlowsKnown(d, g) && HasEdge(Forward(g.outgoing, back), n, m)
    ensures n in g.nodes && m in g.nodes
  {
    EdgesAreFlows(d, g, n, m);
    assert Known(g, Edge(n, m));
  }

  lemma {:induction false} PathToKnown(d: Definition, g: Graph, back: set<Edge>, path: seq<Node>)
    requires Built(d, g) && FlowsKnown(d, g) && Path(Forward(g.outgoing, back), path) && path[0] in g.nodes
    ensures path[|path|-1] in g.nodes
  {
    hide Built, FlowsKnown;
    if |path| > 1 {
      assert HasEdge(Forward(g.outgoing, back), path[0], path[1]);
      FlowsToKnown(d, g, back, path[0], path[1]);
      PathToKnown(d, g, back, path[1..]);
    }
  }

  // Only exclusive gateways send flows back.
  lemma {:induction false} StraightOuts(g: Graph, back: set<Edge>, n: Node, outs: seq<Node>)
    requires LoopsGuarded(g, back) && !HasKind(g, n, ExclusiveGateway)
    ensures Keep(n, outs, back) == outs
  {
    hide ForwardOuts;
    if outs != [] {
      StraightOuts(g, back, n, outs[1..]);
      assert Edge(n, outs[0]) in back ==> !Unguarded(g, back, Edge(n, outs[0]));
    }
  }

  lemma BoundaryGoesOn(d: Definition, p: T.Process, n: Node)
    requires Built(d, p.g) && LoopsGuarded(p.g, p.back) && BoundariesSound(d, p.g, p.back) && IsBoundaryNode(p.g, n)
    ensures !HasKind(p.g, n, BoundaryEvent) && |T.Nexts(p, n)| <= 1 && T.Nexts(p, n) == Outs(p.g.outgoing, n)
  {
    hide LoopsGuarded;
    assert Declares(d, n, p.g.kind[n]);
    StraightOuts(p.g, p.back, n, Outs(p.g.outgoing, n));
    var b :| b in d.boundaries && b.id == n && BoundaryKind(b) == p.g.kind[n];
    assert OneDefinition(b) && !SplitBoundary(p.g, p.back, b);
  }

  lemma NotLoose(d: Definition, g: Graph, implicit: Option<Node>, n: Node)
    requires Built(d, g) && NothingDangles(d, g, implicit) && n in g.nodes && !IsBoundaryNode(g, n) && !IsEnd(g, n)
    ensures Outs(g.outgoing, n) != []
  {
    assert !Dangles(d, g, implicit, n);
    assert Declares(d, n, g.kind[n]);
  }

  /** Of the known nodes of an accepted process, those that do not return at once are compiled as they should be. */
  lemma KeptSane(d: Definition, p: T.Process, bodies: T.Bodies, implicit: Option<Node>, n: Node)
    requires Built(d, p.g) && Clean(d, p.g, p.back, implicit) && SkipsTasks(p) && n in p.g.nodes && !Drops(p, n)
    requires HasKind(p.g, n, SubProcess) && n in bodies ==> SaneProcess(T.Body(p, bodies, n), map[])
    ensures SaneNode(p, bodies, n)
  {
    hide AllReached, GatewaysMatched, NoTraps, LoopsGuarded, ForwardOuts, FlowsKnown, SaneProcess, T.Body, TooDeep,
         NothingDangles, Built, BoundariesSound;
    assert n in p.g.kind by { KnownKinds(d, p.g); }
    if IsBoundaryNode(p.g, n) {
      BoundaryGoesOn(d, p, n);
    } else if !IsEnd(p.g, n) {
      NotLoose(d, p.g, implicit, n);
      SomeForward(p.g, p.back, n);
    }
  }

  lemma KnownKinds(d: Definition, g: Graph)
    requires Built(d, g)
    ensures g.nodes == g.kind.Keys
  {
  }

  lemma EntryRanked(d: Definition, p: T.Process, implicit: Option<Node>, rank: map<Node, nat>)
    requires Accepted(d, p, implicit, rank)
    ensures Ranked(ForwardGraph(p), rank)
    ensures Entry(p, implicit).Some? ==> Entry(p, implicit).value in rank && Entry(p, implicit).value in p.g.nodes
  {
    hide Reaches, Ranked, ClosesForwardCycle, HasEdge, AllReached, GatewaysMatched, NoTraps, LoopsGuarded,
         NothingDangles, SingleExits, ForwardOuts, T.Nexts, Built, FlowsKnown;
    if Entry(p, implicit).Some? {
      var start := StartOf(d, implicit).value;
      assert Roots(d, start)[0] == start;
      ReachesSelf(p.g.outgoing, start);
      assert ReachedFrom(p.g.outgoing, Roots(d, start), start);
      if p.start.Some? {
        FirstForwardRanked(d, p, rank, start);
      }
    }
  }

  lemma FirstForwardRanked(d: Definition, p: T.Process, rank: map<Node, nat>, start: Node)
    requires Ranked(Forward(p.g.outgoing, p.back), rank) && start in rank && T.Nexts(p, start) != []
    requires Built(d, p.g) && FlowsKnown(d, p.g)
    ensures T.Nexts(p, start)[0] in rank && T.Nexts(p, start)[0] in p.g.nodes
  {
    hide Ranked, HasEdge, Built, FlowsKnown, ForwardOuts;
    ForwardStep(p.g, p.back, rank, start, T.Nexts(p, start)[0]);
    FlowsToKnown(d, p.g, p.back, start, T.Nexts(p, start)[0]);
  }

  lemma RegionKnown(d: Definition, p: T.Process, implicit: Option<Node>, n: Node, m: Node)
    requires Built(d, p.g) && Clean(d, p.g, p.back, implicit) && n in p.g.nodes && Reaches(ForwardGraph(p), n, m)
    ensures m in p.g.nodes
  {
    hide Built, NothingDangles, AllReached, GatewaysMatched, NoTraps, LoopsGuarded, SingleExits, Path;
    var path :| PathBetween(ForwardGraph(p), path, n, m);
    PathToKnown(d, p.g, p.back, path);
  }

  ghost predicate BodiesSane(p: T.Process, bodies: T.Bodies) {
    forall n :: n in bodies ==> SaneProcess(T.Body(p, bodies, n), map[])
  }

  lemma AheadKept(d: Definition, p: T.Process, bodies: T.Bodies, implicit: Option<Node>, rank: map<Node, nat>,
                  n: Node, last: Option<Node>)
    requires Accepted(d, p, implicit, rank) && BodiesSane(p, bodies) && n in p.g.nodes
    ensures KeptOrDropped(p, bodies, n, last)
  {
    hide Reaches, HasEdge, Clean, ClosesForwardCycle, SaneNode, SaneProcess, T.Body, StartsRightly, Entry, Ranked,
         ReachedFrom, Built, Drops;
    forall m | Reaches(ForwardGraph(p), n, m) && !Drops(p, m)
      ensures SaneNode(p, bodies, m)
    {
      RegionKnown(d, p, implicit, n, m);
      KeptSane(d, p, bodies, implicit, m);
    }
  }

  // Accepted processes with a quiet entry are what the compilation theorem asks for.
  lemma AcceptedSane(d: Definition, p: T.Process, bodies: T.Bodies, implicit: Option<Node>, rank: map<Node, nat>)
    requires Accepted(d, p, implicit, rank) && EntryQuiet(p, bodies, implicit)
    requires BodiesSane(p, bodies) && E.BodiesRanked(bodies)
    ensures SaneEntry(p, bodies, rank, implicit)
  {
    hide Accepted, Entry, QuietFrom, BodiesSane, KeptOrDropped, E.BodiesRanked;
    EntryRanked(d, p, implicit, rank);
    if Entry(p, implicit).Some? {
      AheadKept(d, p, bodies, implicit, rank, Entry(p, implicit).value, None);
      QuietRegular(p, bodies, rank, Entry(p, implicit).value);
    }
  }

  lemma BodySane(q: T.Process)
    requires AcceptedBody(q) && EntryQuiet(q, map[], None)
    ensures SaneProcess(q, map[])
  {
    hide Accepted, EntryQuiet;
    var d, rank :| Accepted(d, q, None, rank);
    AcceptedSane(d, q, map[], None, rank);
    assert SaneFrom(q, map[], rank) by { FromEntry(q, rank); }
  }

  lemma FromEntry(q: T.Process, rank: map<Node, nat>)
    requires SaneEntry(q, map[], rank, None)
    ensures SaneFrom(q, map[], rank)
  {
    hide Regular, T.Nexts, Ranked;
  }

  ghost predicate BodiesAccepted(p: T.Process, bodies: T.Bodies) {
    forall n :: n in bodies ==> AcceptedBody(T.Body(p, bodies, n))
  }

  lemma BodyMatched(p: T.Process, bodies: T.Bodies, n: Node)
    requires n in bodies && AcceptedBody(T.Body(p, bodies, n))
    ensures T.SplitsMatched(bodies[n])
  {
    hide T.JoinAt, T.Nexts, Built, Classified, GatewaysMatched, AllReached, Roots;
    var q := T.Body(p, bodies, n);
    var d, rank :| Accepted(d, q, None, rank);
    GatewaysTotal(d, bodies[n], StartOf(d, None).value, rank);
  }

  ghost predicate BodiesQuiet(p: T.Process, bodies: T.Bodies) {
    forall n :: n in bodies ==> EntryQuiet(T.Body(p, bodies, n), map[], None)
  }

  lemma BodiesMatched(p: T.Process, bodies: T.Bodies)
    requires BodiesAccepted(p, bodies)
    ensures forall n :: n in bodies ==> T.SplitsMatched(bodies[n])
  {
    hide AcceptedBody, T.SplitsMatched, T.Body;
    forall n | n in bodies
      ensures T.SplitsMatched(bodies[n])
    {
      BodyMatched(p, bodies, n);
    }
  }

  // What accepted bodies are worth to the process they stand in.
  lemma BodiesServe(p: T.Process, bodies: T.Bodies)
    requires BodiesAccepted(p, bodies) && BodiesQuiet(p, bodies)
    ensures BodiesSane(p, bodies) && E.BodiesRanked(bodies)
  {
    hide AcceptedBody, SaneProcess, T.Body, E.RankedFromStart, EntryQuiet;
    forall n | n in bodies
      ensures SaneProcess(T.Body(p, bodies, n), map[]) && E.RankedFromStart(bodies[n])
    {
      BodySane(T.Body(p, bodies, n));
      BodyRanked(p, bodies, n);
    }
  }

  lemma BodyRanked(p: T.Process, bodies: T.Bodies, n: Node)
    requires n in bodies && SaneProcess(T.Body(p, bodies, n), map[])
    ensures E.RankedFromStart(bodies[n])
  {
    hide Ranked, SaneNode;
    var q := T.Body(p, bodies, n);
    var rank :| SaneFrom(q, map[], rank);
    E.SameNexts(bodies[n], q.defaultLane);
    assert ForwardGraph(q) == ForwardGraph(bodies[n]);
  }

  /** An entry ahead of which no node at all returns at once is quiet. */
  lemma KeptEntryQuiet(d: Definition, p: T.Process, bodies: T.Bodies, implicit: Option<Node>, rank: map<Node, nat>)
    requires Accepted(d, p, implicit, rank) && Entry(p, implicit).Some?
    requires forall x :: Reaches(ForwardGraph(p), Entry(p, implicit).value, x) ==> !Drops(p, x)
    ensures EntryQuiet(p, bodies, implicit)
  {
    hide Accepted, Entry, Drops, QuietFrom, Reaches;
    EntryRanked(d, p, implicit, rank);
    NothingDropsQuiet(p, bodies, rank, Entry(p, implicit).value);
  }

  // ----- accepted processes whose plans stop short -----

  /**
   * An accepted process whose every path from the entry meets a node that
   * returns at once, nothing being lost before: its plan means its graph if and
   * only if no stage is held back when the main flow comes there and no work is ahead.
   */
  lemma AcceptedStopsShort(d: Definition, p: T.Process, bodies: T.Bodies, implicit: Option<Node>,
                           rank: map<Node, nat>, x: Node)
    requires Accepted(d, p, implicit, rank) && BodiesAccepted(p, bodies) && BodiesQuiet(p, bodies)
    requires Entry(p, implicit).Some? && FirstDrop(p, bodies, Entry(p, implicit).value, x)
    ensures var r := T.CompilePlan(p, bodies, implicit);
            r.Done? ==>
              (PlanIsGraph(p, bodies, implicit, r.st) <==>
                 !S.Held(p, rank, Entry(p, implicit).value, x, false) && !E.WorkAhead(p, bodies, x, None))
  {
    hide Accepted, T.CompilePlan, StepsLang, Words, RunsTo, BodiesAccepted, BodiesQuiet, BodiesSane, E.BodiesRanked,
         S.OnWay, S.Held, E.WorkAhead, Drops, Entry, OnEveryPath, Reaches, KeptOrDropped, QuietBranches,
         S.NoneBefore;
    var entry := Entry(p, implicit).value;
    BodiesServe(p, bodies);
    EntryRanked(d, p, implicit, rank);
    AheadKept(d, p, bodies, implicit, rank, entry, Some(x));
    WayToDrop(p, bodies, rank, entry, x);
    S.PlanIntoDrop(p, bodies, rank, implicit, x);
  }
}

/**
 * A process every structural pass accepts: a parallel, an inclusive and an
 * exclusive split whose branches meet again, a flow back to the first of them and
 * a timer on a task. The passes refuse none of these.
 */
module SplitsAccepted {
  import opened Wrappers
  import opened Graphs
  import opened Bpmn
  import opened Definitions
  import opened BackEdges
  import opened PostDominators
  import opened Joins
  import T = Traversal
  import opened Plans
  import opened Validation
  import opened Depth
  import opened Acceptance

  const START := Node(0)
  const ALL := Node(1)
  const A := Node(2)
  const SOME := Node(3)
  const B := Node(4)
  const ONE := Node(5)
  const C := Node(6)
  const END := Node(7)
  const TIMER := Node(8)

  const FLOWS: seq<Edge> :=
    [Edge(START, ALL), Edge(ALL, A), Edge(ALL, SOME), Edge(A, SOME), Edge(SOME, B), Edge(SOME, ONE), Edge(B, ONE),
     Edge(ONE, C), Edge(ONE, END), Edge(ONE, ALL), Edge(C, END), Edge(TIMER, C)]

  const DEFINITION := Definition([START], [END], [A, B, C], [], [], [ALL], [ONE], [SOME], [], [],
                                 [Boundary(TIMER, true, false, false)], FLOWS)

  const OUTGOING: Succ :=
    map[START := [ALL], ALL := [A, SOME], A := [SOME], SOME := [B, ONE], B := [ONE], ONE := [C, END, ALL], C := [END],
        TIMER := [C]]
  const INCOMING: Succ :=
    map[ALL := [START, ONE], A := [ALL], SOME := [ALL, A], B := [SOME], ONE := [SOME, B], C := [ONE, TIMER],
        END := [ONE, C]]
  const KINDS: map<Node, Kind> :=
    map[START := StartEvent, ALL := ParallelGateway, A := UserTask, SOME := InclusiveGateway, B := UserTask,
        ONE := ExclusiveGateway, C := UserTask, END := EndEvent, TIMER := TimerBoundaryEvent]
  const RANK: map<Node, nat> :=
    map[START := 7, ALL := 6, A := 5, SOME := 4, B := 3, ONE := 2, C := 1, END := 0, TIMER := 2]

  const GRAPH := Graph(OUTGOING, INCOMING, KINDS, KINDS.Keys)
  const BACK: set<Edge> := {Edge(ONE, ALL)}

  const PROCESS := T.Process(GRAPH, BACK, Some(START), {}, map[], Lane(0), [TIMER], map[], {})

  // ----- the graph is built from the definition -----

  // One more flow, as seen from n.
  lemma FlowNext(i: nat, f: Edge, n: Node)
    requires i < |FLOWS| && FLOWS[i] == f
    ensures TargetsFrom(FLOWS[..i + 1], n) == TargetsFrom(FLOWS[..i], n) + if f.from == n then [f.to] else []
    ensures SourcesOf(FLOWS[..i + 1], n) == SourcesOf(FLOWS[..i], n) + if f.to == n then [f.from] else []
  {
    assert FLOWS[..i + 1][..i] == FLOWS[..i];
  }

  lemma Flows3(n: Node)
    ensures TargetsFrom(FLOWS[..3], n) == if n == START then [ALL] else if n == ALL then [A, SOME] else []
    ensures SourcesOf(FLOWS[..3], n) == if n == ALL then [START] else if n == A then [ALL]
              else if n == SOME then [ALL] else []
  {
    assert FLOWS[..0] == [];
    assert TargetsFrom(FLOWS[..0], n) == [] && SourcesOf(FLOWS[..0], n) == [];
    hide TargetsFrom, SourcesOf;
    FlowNext(0, Edge(START, ALL), n);
    FlowNext(1, Edge(ALL, A), n);
    FlowNext(2, Edge(ALL, SOME), n);
  }

  lemma Flows6(n: Node)
    ensures TargetsFrom(FLOWS[..6], n) == if n == START then [ALL] else if n == ALL then [A, SOME]
              else if n == A then [SOME] else if n == SOME then [B, ONE] else []
    ensures SourcesOf(FLOWS[..6], n) == if n == ALL then [START] else if n == A then [ALL]
              else if n == SOME then [ALL, A] else if n == B then [SOME] else if n == ONE then [SOME] else []
  {
    hide TargetsFrom, SourcesOf;
    Flows3(n);
    FlowNext(3, Edge(A, SOME), n);
    FlowNext(4, Edge(SOME, B), n);
    FlowNext(5, Edge(SOME, ONE), n);
  }

  lemma Flows9(n: Node)
    ensures TargetsFrom(FLOWS[..9], n) == if n == START then [ALL] else if n == ALL then [A, SOME]
              else if n == A then [SOME] else if n == SOME then [B, ONE] else if n == B then [ONE]
              else if n == ONE then [C, END] else []
    ensures SourcesOf(FLOWS[..9], n) == if n == ALL then [START] else if n == A then [ALL]
              else if n == SOME then [ALL, A] else if n == B then [SOME] else if n == ONE then [SOME, B]
              else if n == C then [ONE] else if n == END then [ONE] else []
  {
    hide TargetsFrom, SourcesOf;
    Flows6(n);
    FlowNext(6, Edge(B, ONE), n);
    FlowNext(7, Edge(ONE, C), n);
    FlowNext(8, Edge(ONE, END), n);
  }

  lemma Flows12(n: Node)
    ensures TargetsFrom(FLOWS[..12], n) == if n == START then [ALL] else if n == ALL then [A, SOME]
              else if n == A then [SOME] else if n == SOME then [B, ONE] else if n == B then [ONE]
              else if n == ONE then [C, END, ALL] else if n == C then [END] else if n == TIMER then [C] else []
    ensures SourcesOf(FLOWS[..12], n) == if n == ALL then [START, ONE] else if n == A then [ALL]
              else if n == SOME then [ALL, A] else if n == B then [SOME] else if n == ONE then [SOME, B]
              else if n == C then [ONE, TIMER] else if n == END then [ONE, C] else []
  {
    hide TargetsFrom, SourcesOf;
    Flows9(n);
    FlowNext(9, Edge(ONE, ALL), n);
    FlowNext(10, Edge(C, END), n);
    FlowNext(11, Edge(TIMER, C), n);
  }

  lemma FlowsLinked(n: Node)
    ensures Outs(OUTGOING, n) == TargetsFrom(FLOWS, n) && Outs(INCOMING, n) == SourcesOf(FLOWS, n)
  {
    hide TargetsFrom, SourcesOf;
    Flows12(n);
    assert FLOWS[..12] == FLOWS;
  }

  lemma KindsDeclared()
    ensures forall n :: n in KINDS ==> Declares(DEFINITION, n, KINDS[n])
    ensures forall n, k :: Declares(DEFINITION, n, k) ==> n in KINDS
  {
    assert DEFINITION.boundaries[0] == Boundary(TIMER, true, false, false);
    assert BoundaryKind(DEFINITION.boundaries[0]) == TimerBoundaryEvent;
  }

  lemma IsBuilt()
    ensures Built(DEFINITION, GRAPH)
  {
    KindsDeclared();
    hide TargetsFrom, SourcesOf, Declares, Outs;
    forall n
      ensures Outs(OUTGOING, n) == TargetsFrom(DEFINITION.flows, n)
      ensures Outs(INCOMING, n) == SourcesOf(DEFINITION.flows, n)
    {
      FlowsLinked(n);
    }
  }

  // ----- its back edge and ranks -----

  lemma NextNodes()
    ensures ForwardOuts(OUTGOING, BACK, START) == [ALL] && ForwardOuts(OUTGOING, BACK, ALL) == [A, SOME]
    ensures ForwardOuts(OUTGOING, BACK, A) == [SOME] && ForwardOuts(OUTGOING, BACK, SOME) == [B, ONE]
    ensures ForwardOuts(OUTGOING, BACK, B) == [ONE] && ForwardOuts(OUTGOING, BACK, ONE) == [C, END]
    ensures ForwardOuts(OUTGOING, BACK, C) == [END] && ForwardOuts(OUTGOING, BACK, TIMER) == [C]
    ensures forall n :: n !in OUTGOING ==> ForwardOuts(OUTGOING, BACK, n) == []
  {
    KeepTwo(ALL, A, SOME);
    KeepTwo(SOME, B, ONE);
    KeepTwo(ONE, C, END);
    assert [C, END, ALL] == [C, END] + [ALL];
    KeepSnoc(ONE, [C, END], ALL, BACK);
    KeepOne(START, ALL);
    KeepOne(A, SOME);
    KeepOne(B, ONE);
    KeepOne(C, END);
    KeepOne(TIMER, C);
    hide Keep;
  }

  lemma KeepOne(n: Node, m: Node)
    requires Edge(n, m) !in BACK
    ensures Keep(n, [m], BACK) == [m]
  {
    assert [m][1..] == [];
  }

  lemma KeepTwo(n: Node, m: Node, k: Node)
    requires Edge(n, m) !in BACK && Edge(n, k) !in BACK
    ensures Keep(n, [m, k], BACK) == [m, k]
  {
    KeepOne(n, k);
    assert [m, k][1..] == [k];
  }

  lemma IsRanked()
    ensures Ranked(Forward(OUTGOING, BACK), RANK)
  {
    forall u, v {:trigger HasEdge(Forward(OUTGOING, BACK), u, v)} | u in RANK && HasEdge(Forward(OUTGOING, BACK), u, v)
      ensures v in RANK && RANK[v] < RANK[u]
    {
      assert HasEdge(OUTGOING, u, v) && Edge(u, v) !in BACK;
    }
  }

  lemma StartReaches()
    ensures forall n :: n in RANK && n != TIMER ==> Reaches(OUTGOING, START, n)
  {
    hide Reaches;
    ReachesSelf(OUTGOING, START);
    ReachesSnoc(OUTGOING, START, START, ALL);
    ReachesSnoc(OUTGOING, START, ALL, A);
    ReachesSnoc(OUTGOING, START, A, SOME);
    ReachesSnoc(OUTGOING, START, SOME, B);
    ReachesSnoc(OUTGOING, START, B, ONE);
    ReachesSnoc(OUTGOING, START, ONE, C);
    ReachesSnoc(OUTGOING, START, C, END);
  }

  lemma NothingElse()
    ensures Closed(OUTGOING, RANK.Keys)
  {
  }

  lemma ReachedNodes()
    ensures forall n :: n in RANK <==> ReachedFrom(OUTGOING, Roots(DEFINITION, START), n)
  {
    hide Reaches, Closed, HasEdge;
    var roots := Roots(DEFINITION, START);
    assert roots == [START, TIMER];
    assert START in roots && TIMER in roots;
    StartReaches();
    ReachesSelf(OUTGOING, TIMER);
    NothingElse();
    forall n | ReachedFrom(OUTGOING, roots, n)
      ensures n in RANK
    {
      var r :| r in roots && Reaches(OUTGOING, r, n);
      ClosedReaches(OUTGOING, RANK.Keys, r, n);
    }
  }

  lemma BackCloses()
    ensures ClosesForwardCycle(OUTGOING, BACK, Edge(ONE, ALL))
  {
    hide Reaches, Forward;
    var F := Forward(OUTGOING, BACK);
    assert HasEdge(OUTGOING, ONE, ALL) && HasEdge(OUTGOING, ALL, SOME) && HasEdge(OUTGOING, SOME, ONE);
    assert HasEdge(F, ALL, SOME) && HasEdge(F, SOME, ONE);
    ReachesEdge(F, ALL, SOME);
    ReachesSnoc(F, ALL, SOME, ONE);
  }

  lemma IsClassified()
    ensures Classified(OUTGOING, Roots(DEFINITION, START), BACK, RANK)
  {
    hide Ranked, ReachedFrom, Roots, Forward, ClosesForwardCycle;
    IsRanked();
    ReachedNodes();
    BackCloses();
  }

  // ----- its splits have their joins -----

  // A split into a node that goes on to the other target alone joins there.
  lemma JoinsThere(F: Succ, n: Node, a: Node, j: Node)
    requires Outs(F, n) == [a, j] && Outs(F, a) == [j] && j != n && a != n
    ensures IsImmediate(F, n, Some(j))
  {
    forall q | MaxPath(F, q, n)
      ensures j in q
    {
      assert |q| > 1 && HasEdge(F, n, q[1]);
      if q[1] == a {
        assert Path(F, q[1..]) && |q| > 2 && HasEdge(F, a, q[2]);
      }
    }
    forall x | x != n && PostDominates(F, x, n)
      ensures PostDominates(F, x, j)
    {
      forall q | MaxPath(F, q, j)
        ensures x in q
      {
        assert HasEdge(F, n, j) && ([n] + q)[1..] == q;
        assert MaxPath(F, [n] + q, n);
      }
    }
  }

  lemma HasJoin(n: Node, a: Node, j: Node)
    requires ForwardOuts(OUTGOING, BACK, n) == [a, j] && ForwardOuts(OUTGOING, BACK, a) == [j] && j != n && a != n
    requires n in RANK
    ensures T.JoinAt(OUTGOING, BACK, n) == Some(j)
  {
    hide Ranked, IsImmediate, JoinOf, ReachesCycle;
    var F := Forward(OUTGOING, BACK);
    assert Outs(F, n) == [a, j] && Outs(F, a) == [j];
    JoinsThere(F, n, a, j);
    IsRanked();
    RankedAcyclic(F, RANK, n);
    JoinExact(OUTGOING, BACK, n, Some(j));
    JoinUnique(OUTGOING, BACK, n, Some(j), T.JoinAt(OUTGOING, BACK, n));
  }

  lemma SplitsJoin()
    ensures T.JoinAt(OUTGOING, BACK, ALL) == Some(SOME) && T.JoinAt(OUTGOING, BACK, SOME) == Some(ONE)
    ensures T.JoinAt(OUTGOING, BACK, ONE) == Some(END)
  {
    hide T.JoinAt, ForwardOuts;
    NextNodes();
    HasJoin(ALL, A, SOME);
    HasJoin(SOME, B, ONE);
    HasJoin(ONE, C, END);
  }

  // ----- no pass reports anything -----

  lemma GatewaysFit()
    ensures GatewaysMatched(DEFINITION, GRAPH, BACK)
  {
    hide T.JoinAt, ForwardOuts, ReachesCycle, BranchesEnd;
    SplitsJoin();
  }

  lemma NotDeep()
    ensures !TooDeep(OUTGOING, BACK, START)
  {
    hide Ranked, Path;
    IsRanked();
    forall path | PathFrom(Forward(OUTGOING, BACK), path, START)
      ensures |path| <= MAX_PATH_DEPTH
    {
      RankedPath(Forward(OUTGOING, BACK), RANK, path);
    }
  }

  lemma FewExits()
    ensures forall n :: n in KINDS && n !in {ALL, SOME, ONE} ==> |ForwardOuts(OUTGOING, BACK, n)| <= 1
    ensures ForwardOuts(OUTGOING, BACK, END) == [] && ForwardOuts(OUTGOING, BACK, ONE) != []
  {
    NextNodes();
    hide ForwardOuts;
  }

  lemma ExitsFit()
    ensures SingleExits(GRAPH, BACK)
  {
    FewExits();
    hide ForwardOuts;
  }

  lemma TimerFits()
    ensures BoundariesSound(DEFINITION, GRAPH, BACK)
  {
    FewExits();
    hide ForwardOuts;
    assert TIMER in KINDS;
  }

  lemma LoopFits()
    ensures LoopsGuarded(GRAPH, BACK)
  {
    FewExits();
    hide ForwardOuts;
  }

  lemma FlowsFit()
    ensures FlowsKnown(DEFINITION, GRAPH)
  {
  }

  lemma NodesLinked()
    ensures forall n :: n in KINDS && n !in {START, TIMER} ==> Outs(INCOMING, n) != []
    ensures forall n :: n in KINDS && n != END ==> Outs(OUTGOING, n) != []
  {
  }

  lemma NoneLoose()
    ensures NothingDangles(DEFINITION, GRAPH, None)
  {
    NodesLinked();
    hide Outs;
  }

  lemma NodesReached()
    ensures AllReached(DEFINITION, GRAPH, START)
  {
    hide ReachedFrom;
    ReachedNodes();
  }

  /**
   * Every pass accepts the process, though a parallel, an inclusive and an
   * exclusive gateway split in it and a flow goes back.
   */
  lemma SplitsAreAccepted()
    ensures Accepted(DEFINITION, PROCESS, None, RANK)
    ensures forall n :: n in {ALL, SOME, ONE} ==> |ForwardOuts(OUTGOING, BACK, n)| == 2
    ensures HasKind(GRAPH, ALL, ParallelGateway) && HasKind(GRAPH, SOME, InclusiveGateway)
    ensures HasKind(GRAPH, ONE, ExclusiveGateway) && HasEdge(OUTGOING, ONE, ALL) && Edge(ONE, ALL) in BACK
  {
    NextNodes();
    IsBuilt();
    IsClassified();
    NotDeep();
    ExitsFit();
    TimerFits();
    LoopFits();
    FlowsFit();
    NoneLoose();
    NodesReached();
    GatewaysFit();
    hide SingleExits, BoundariesSound, FlowsKnown, NothingDangles, LoopsGuarded, GatewaysMatched, AllReached, Built,
         Classified, TooDeep, NoTraps, ForwardOuts;
    NoTrapsLeft(DEFINITION, GRAPH, BACK, START, RANK);
  }
}

/**
 * A process every structural pass accepts whose plan loses work: a call, a task,
 * an error boundary event with a flow in, a second task, an end event. The plan
 * runs the call and neither task.
 */
module LostWork {
  import opened Wrappers
  import opened Graphs
  import opened Bpmn
  import opened Definitions
  import opened BackEdges
  import opened PostDominators
  import opened Joins
  import opened Languages
  import opened Plans
  import T = Traversal
  import opened PathLanguage
  import opened PlanMeaning
  import E = EarlyEnds
  import F = Failures
  import S = Spine
  import opened Validation
  import opened Depth
  import opened Acceptance
  import opened QuietEnds

  const START := Node(0)
  const CALL := Node(1)
  const FIRST := Node(2)
  const EVENT := Node(3)
  const SECOND := Node(4)
  const END := Node(5)

  const DEFINITION := Definition([START], [END], [FIRST, SECOND], [], [], [], [], [], [], [CALL],
                                 [Boundary(EVENT, false, true, false)],
                                 [Edge(START, CALL), Edge(CALL, FIRST), Edge(FIRST, EVENT), Edge(EVENT, SECOND),
                                  Edge(SECOND, END)])

  const OUTGOING: Succ := map[START := [CALL], CALL := [FIRST], FIRST := [EVENT], EVENT := [SECOND], SECOND := [END]]
  const INCOMING: Succ := map[CALL := [START], FIRST := [CALL], EVENT := [FIRST], SECOND := [EVENT], END := [SECOND]]
  const KINDS: map<Node, Kind> :=
    map[START := StartEvent, CALL := CallActivity, FIRST := UserTask, EVENT := ErrorBoundaryEvent,
        SECOND := UserTask, END := EndEvent]
  const RANK: map<Node, nat> := map[START := 5, CALL := 4, FIRST := 3, EVENT := 2, SECOND := 1, END := 0]

  const GRAPH := Graph(OUTGOING, INCOMING, KINDS, KINDS.Keys)

  const PROCESS := T.Process(GRAPH, {}, Some(START), {}, map[], Lane(0), [EVENT], map[], {})

  // One more flow, from and to nodes without such flows so far.
  lemma LinkNext(flows: seq<Edge>, flows': seq<Edge>, f: Edge, out: Succ, inc: Succ)
    requires Linked(flows, out, inc) && flows' == flows + [f] && f.from !in out && f.to !in inc
    ensures Linked(flows', out[f.from := [f.to]], inc[f.to := [f.from]])
  {
    hide Linked;
    assert Outs(out, f.from) + [f.to] == [f.to];
    assert Outs(inc, f.to) + [f.from] == [f.from];
    LinksOne(flows, f, out, inc);
  }

  lemma Links()
    ensures Linked(DEFINITION.flows, OUTGOING, INCOMING)
  {
    hide Linked;
    var f := DEFINITION.flows;
    NothingLinked();
    LinkNext(f[..0], f[..1], f[0], map[], map[]);
    LinkNext(f[..1], f[..2], f[1], map[START := [CALL]], map[CALL := [START]]);
    LinkNext(f[..2], f[..3], f[2], map[START := [CALL], CALL := [FIRST]], map[CALL := [START], FIRST := [CALL]]);
    LinkNext(f[..3], f[..4], f[3], map[START := [CALL], CALL := [FIRST], FIRST := [EVENT]],
             map[CALL := [START], FIRST := [CALL], EVENT := [FIRST]]);
    LinkNext(f[..4], f, f[4], map[START := [CALL], CALL := [FIRST], FIRST := [EVENT], EVENT := [SECOND]],
             map[CALL := [START], FIRST := [CALL], EVENT := [FIRST], SECOND := [EVENT]]);
  }

  lemma IsBuilt()
    ensures Built(DEFINITION, GRAPH)
  {
    Links();
    LinksAll(DEFINITION.flows, OUTGOING, INCOMING);
    KindsDeclared();
    hide TargetsFrom, SourcesOf, Linked, Declares, Outs;
  }

  lemma KindsDeclared()
    ensures forall n :: n in KINDS ==> Declares(DEFINITION, n, KINDS[n])
    ensures forall n, k :: Declares(DEFINITION, n, k) ==> n in KINDS
  {
    assert DEFINITION.boundaries[0] == Boundary(EVENT, false, true, false);
    assert BoundaryKind(DEFINITION.boundaries[0]) == ErrorBoundaryEvent;
  }

  lemma NextNodes()
    ensures T.Nexts(PROCESS, START) == [CALL] && T.Nexts(PROCESS, CALL) == [FIRST] && T.Nexts(PROCESS, FIRST) == [EVENT]
    ensures T.Nexts(PROCESS, EVENT) == [SECOND] && T.Nexts(PROCESS, SECOND) == [END] && T.Nexts(PROCESS, END) == []
    ensures forall n :: n !in OUTGOING ==> T.Nexts(PROCESS, n) == []
  {
    assert Keep(START, [CALL], {}) == [CALL];
    assert Keep(CALL, [FIRST], {}) == [FIRST];
    assert Keep(FIRST, [EVENT], {}) == [EVENT];
    assert Keep(EVENT, [SECOND], {}) == [SECOND];
    assert Keep(SECOND, [END], {}) == [END];
  }

  lemma IsRanked()
    ensures Ranked(Forward(OUTGOING, {}), RANK)
  {
    forall u, v {:trigger HasEdge(Forward(OUTGOING, {}), u, v)} | u in RANK && HasEdge(Forward(OUTGOING, {}), u, v)
      ensures v in RANK && RANK[v] < RANK[u]
    {
      assert HasEdge(OUTGOING, u, v);
    }
  }

  lemma ReachedNodes()
    ensures forall n :: n in RANK <==> ReachedFrom(OUTGOING, Roots(DEFINITION, START), n)
  {
    hide Reaches;
    var roots := Roots(DEFINITION, START);
    assert roots == [START, EVENT];
    ReachesSelf(OUTGOING, START);
    ReachesSnoc(OUTGOING, START, START, CALL);
    ReachesSnoc(OUTGOING, START, CALL, FIRST);
    ReachesSnoc(OUTGOING, START, FIRST, EVENT);
    ReachesSnoc(OUTGOING, START, EVENT, SECOND);
    ReachesSnoc(OUTGOING, START, SECOND, END);
    assert START in roots;
    forall n | ReachedFrom(OUTGOING, roots, n)
      ensures n in RANK
    {
      var r :| r in roots && Reaches(OUTGOING, r, n);
      ClosedReaches(OUTGOING, RANK.Keys, r, n);
    }
  }

  lemma IsClassified()
    ensures Classified(OUTGOING, Roots(DEFINITION, START), {}, RANK)
  {
    hide Ranked, ReachedFrom, Roots, Forward;
    IsRanked();
    ReachedNodes();
  }

  lemma NotDeep()
    ensures !TooDeep(OUTGOING, {}, START)
  {
    hide Ranked, Path;
    IsRanked();
    forall path | PathFrom(Forward(OUTGOING, {}), path, START)
      ensures |path| <= MAX_PATH_DEPTH
    {
      RankedPath(Forward(OUTGOING, {}), RANK, path);
    }
  }

  lemma ExitsAreSingle()
    ensures SingleExits(GRAPH, {}) && BoundariesSound(DEFINITION, GRAPH, {})
  {
    NextNodes();
    hide Keep;
    assert forall n :: T.Nexts(PROCESS, n) == ForwardOuts(OUTGOING, {}, n);
    hide ForwardOuts;
  }

  lemma FlowsFit()
    ensures FlowsKnown(DEFINITION, GRAPH) && LoopsGuarded(GRAPH, {}) && GatewaysMatched(DEFINITION, GRAPH, {})
  {
    hide Unmatched;
  }

  lemma NoneLoose()
    ensures NothingDangles(DEFINITION, GRAPH, None)
  {
    assert forall n :: n in INCOMING ==> Outs(INCOMING, n) != [];
    assert forall n :: n in OUTGOING ==> Outs(OUTGOING, n) != [];
    hide Outs;
  }

  lemma NodesReached()
    ensures AllReached(DEFINITION, GRAPH, START)
  {
    hide ReachedFrom;
    ReachedNodes();
  }

  lemma IsClean()
    ensures Clean(DEFINITION, GRAPH, {}, None)
  {
    hide SingleExits, BoundariesSound, FlowsKnown, NothingDangles, LoopsGuarded, GatewaysMatched, AllReached, Built,
         Classified, TooDeep, NoTraps;
    NotDeep();
    IsBuilt();
    IsClassified();
    ExitsAreSingle();
    FlowsFit();
    NoneLoose();
    NodesReached();
    NoTrapsLeft(DEFINITION, GRAPH, {}, START, RANK);
  }

  // ----- its compilation -----

  const MAIN := T.Context(PROCESS, map[], None, false)
  const ASIDE := T.Context(PROCESS, map[], None, true)

  // A state with room in the budgets that has not been at n.
  ghost predicate Open(st: T.State, n: Node, room: nat) {
    n !in st.loc.visited && st.sd.stages + room <= T.STAGE_BUDGET && st.sd.nodes + room <= T.NODE_BUDGET
  }

  lemma TaskStep(ctx: T.Context, st: T.State, n: Node, m: Node)
    requires ctx == MAIN || (ctx == ASIDE && n !in st.sd.visited)
    requires HasKind(GRAPH, n, UserTask) && T.Nexts(PROCESS, n) == [m] && Open(st, n, 3)
    ensures var st' := T.AddTask(PROCESS, T.Visit(st, n), n);
            && T.TraverseNode(ctx, st, n) == T.TraverseNode(ctx, st', m)
            && st'.loc.steps == st.loc.steps && st'.loc.visited == st.loc.visited + {n}
            && st'.sd.visited == st.sd.visited + {n} && st'.sd.nodeSegment.Keys == st.sd.nodeSegment.Keys + {n}
            && st'.sd.stages <= st.sd.stages + 1 && st'.sd.nodes == st.sd.nodes + 1
  {
    hide T.Matched, T.Nexts, T.AddTask, T.TraverseFirst, T.Compile;
    var v := T.Visit(st, n);
    T.AddTaskCounts(PROCESS, v, n);
    TaskHasPlace(v, n);
    assert T.TraverseNode(ctx, st, n) == T.Compile(ctx, v, n);
    TaskFollows(ctx, v, n, m);
  }

  lemma TaskHasPlace(v: T.State, n: Node)
    ensures T.AddTask(PROCESS, v, n).sd.nodeSegment.Keys == v.sd.nodeSegment.Keys + {n}
  {
    hide T.LaneOf, T.StartsSegment, T.LatestSegment, T.AppendStage;
    F.LatestPlaces(v.sd, T.LaneOf(PROCESS, n));
    StageLeavesPlaces(n);
  }

  lemma StageLeavesPlaces(n: Node)
    ensures forall sd: Store, s: Segment :: T.AppendStage(sd, s, Task(n)).nodeSegment == sd.nodeSegment
  {
  }

  lemma TaskFollows(ctx: T.Context, v: T.State, n: Node, m: Node)
    requires ctx.p == PROCESS && HasKind(GRAPH, n, UserTask) && T.Nexts(PROCESS, n) == [m]
    ensures T.Compile(ctx, v, n) == T.TraverseNode(ctx, T.AddTask(PROCESS, v, n), m)
  {
    hide T.Matched, T.Nexts, T.AddTask, T.TraverseNode;
    assert T.Compile(ctx, v, n) == T.TraverseFirst(ctx, T.AddTask(PROCESS, v, n), n);
  }

  lemma CallStep(st: T.State)
    requires st.loc.buf == [] && Open(st, CALL, 3)
    ensures var st' := T.AddStep(T.Flush(T.Visit(st, CALL)), CallPlan(CALL));
            T.TraverseNode(MAIN, st, CALL) == T.TraverseNode(MAIN, st', FIRST)
  {
    hide T.Matched, T.Nexts, T.Compile;
    var v := T.Visit(st, CALL);
    assert T.TraverseNode(MAIN, st, CALL) == T.Compile(MAIN, v, CALL);
    CallFollows(v);
  }

  lemma CallFollows(v: T.State)
    ensures T.Compile(MAIN, v, CALL) == T.TraverseNode(MAIN, T.AddStep(T.Flush(v), CallPlan(CALL)), FIRST)
  {
    NextNodes();
    hide T.Matched, T.Nexts, T.TraverseNode, T.Flush, T.AddStep;
    assert T.ReserveLanes(v.sd, []) == v.sd;
    assert T.CompileCall(MAIN, v, CALL) == T.TraverseFirst(MAIN, T.AddStep(T.Flush(v), CallPlan(CALL)), CALL);
  }

  lemma EventStep(st: T.State)
    requires Open(st, EVENT, 1)
    ensures T.TraverseNode(MAIN, st, EVENT) == T.Done(T.Visit(st, EVENT))
  {
    E.DropEntered(MAIN, st, EVENT);
  }

  // The path of the event is compiled apart.
  lemma AsideRuns(st: T.State)
    requires st.sd.stages + 3 <= T.STAGE_BUDGET && st.sd.nodes + 3 <= T.NODE_BUDGET
    requires SECOND !in st.sd.visited && END !in st.sd.visited && SECOND !in st.sd.nodeSegment
    ensures var r := T.BoundaryPaths(MAIN, st, [EVENT]);
            r.Done? && r.st.loc == st.loc && r.st.sd.nodes == st.sd.nodes + 2
  {
    hide T.Matched, T.Nexts, T.TraverseNode, T.TaskAhead, T.RecordPath;
    NextNodes();
    assert T.FirstTarget(PROCESS, EVENT) == Some(SECOND);
    var sub := T.State(st.sd, T.Fresh(false));
    SecondRuns(sub);
    assert T.BoundaryTask(PROCESS, EVENT) == Some(SECOND) by { LeadsToSecond(); }
    RecordCounts(T.TraverseNode(ASIDE, sub, SECOND).st);
    assert T.BoundaryPath(MAIN, st, EVENT).Done?;
    assert [EVENT][1..] == [];
  }

  lemma RecordCounts(s: T.State)
    ensures T.RecordPath(s, EVENT).nodes == s.sd.nodes
  {
  }

  lemma LeadsToSecond()
    ensures T.BoundaryTask(PROCESS, EVENT) == Some(SECOND)
  {
    assert T.FirstTarget(PROCESS, EVENT) == Some(SECOND);
  }

  lemma SecondRuns(st: T.State)
    requires st.loc.visited == {} && st.sd.stages + 3 <= T.STAGE_BUDGET && st.sd.nodes + 3 <= T.NODE_BUDGET
    requires SECOND !in st.sd.visited && END !in st.sd.visited
    ensures var r := T.TraverseNode(ASIDE, st, SECOND); r.Done? && r.st.sd.nodes == st.sd.nodes + 2
  {
    hide T.Matched, T.Nexts, T.AddTask, T.Visit;
    NextNodes();
    TaskStep(ASIDE, st, SECOND, END);
    EndRuns(T.AddTask(PROCESS, T.Visit(st, SECOND), SECOND));
  }

  lemma EndRuns(st: T.State)
    requires Open(st, END, 1) && END !in st.sd.visited
    ensures var r := T.TraverseNode(ASIDE, st, END); r.Done? && r.st.sd.nodes == st.sd.nodes + 1
  {
    hide T.Matched, T.Nexts;
  }

  lemma Compiles()
    ensures var r := T.CompilePlan(PROCESS, map[], None);
            r.Done? && r.st.loc.steps == [CallPlan(CALL)] && r.st.sd.nodes == 5
  {
    hide T.Matched, T.Nexts, T.TraverseNode, T.BoundaryPaths, T.AddTask;
    NextNodes();
    var s0 := T.State(EMPTY_STORE, T.Fresh(false));
    CallStep(s0);
    var s1 := T.AddStep(T.Flush(T.Visit(s0, CALL)), CallPlan(CALL));
    TaskStep(MAIN, s1, FIRST, EVENT);
    var s2 := T.AddTask(PROCESS, T.Visit(s1, FIRST), FIRST);
    EventStep(s2);
    AsideRuns(T.Visit(s2, EVENT));
  }

  // ----- what it loses -----

  lemma WayToEvent()
    ensures FirstDrop(PROCESS, map[], CALL, EVENT)
  {
    hide T.Nexts, Path, Drops, OnEveryPath, Ranked, T.JoinAt, QuietWay, Reaches;
    NextNodes();
    IsRanked();
    EventIsMet();
    EventDrops();
    forall x | Drops(PROCESS, x) && OnEveryPath(PROCESS, x, CALL)
      ensures x == EVENT
    {
      LeadsThere(PROCESS, RANK, x, CALL);
      RankedReaches(ForwardGraph(PROCESS), RANK, CALL, x);
    }
  }

  lemma EventDrops()
    ensures forall n :: n in RANK && n != START ==> (Drops(PROCESS, n) <==> n == EVENT)
  {
  }

  lemma MetNext(n: Node, m: Node)
    requires T.Nexts(PROCESS, n) == [m] && OnEveryPath(PROCESS, EVENT, m)
    ensures OnEveryPath(PROCESS, EVENT, n)
  {
    hide T.Nexts, ForwardGraph;
    NextsAreEdges(PROCESS, n);
    forall q | MaxPath(ForwardGraph(PROCESS), q, n)
      ensures EVENT in q
    {
      assert |q| > 1 && HasEdge(ForwardGraph(PROCESS), n, q[1]);
      assert MaxPath(ForwardGraph(PROCESS), q[1..], m);
    }
  }

  lemma MetHere()
    ensures OnEveryPath(PROCESS, EVENT, EVENT)
  {
    hide ForwardGraph;
  }

  lemma EventIsMet()
    ensures OnEveryPath(PROCESS, EVENT, CALL)
  {
    hide T.Nexts, ForwardGraph, Path, OnEveryPath;
    NextNodes();
    MetHere();
    MetNext(FIRST, EVENT);
    MetNext(CALL, FIRST);
  }

  lemma FirstIsHeld()
    ensures S.Held(PROCESS, RANK, CALL, EVENT, false)
  {
    NextNodes();
    hide T.Nexts, T.JoinAt;
    assert S.After(PROCESS, CALL) == Some(FIRST) && S.After(PROCESS, FIRST) == Some(EVENT);
    assert S.HoldsAfter(PROCESS, FIRST, false);
    hide S.After, S.HoldsAfter;
    assert S.Held(PROCESS, RANK, EVENT, EVENT, true);
    assert S.Held(PROCESS, RANK, FIRST, EVENT, S.HoldsAfter(PROCESS, CALL, false));
  }

  lemma TasksAreSpelled()
    ensures [Called(CALL), Task(FIRST), Task(SECOND)] in PathLang(PROCESS, map[], CALL, None)
  {
    NextNodes();
    hide PathLang, Cat, T.Nexts;
    SingleNext(PROCESS, map[], CALL, None);
    SingleNext(PROCESS, map[], FIRST, None);
    SingleNext(PROCESS, map[], EVENT, None);
    SingleNext(PROCESS, map[], SECOND, None);
    AtSink(PROCESS, map[], END);
    CatEpsRight(Just([Task(SECOND)]));
    CatEpsLeft(Just([Task(SECOND)]));
    InCat(Just([Task(FIRST)]), Just([Task(SECOND)]), [Task(FIRST)], [Task(SECOND)]);
    InCat(Just([Called(CALL)]), Cat(Just([Task(FIRST)]), Just([Task(SECOND)])), [Called(CALL)],
        [Task(FIRST)] + [Task(SECOND)]);
    assert [Called(CALL)] + ([Task(FIRST)] + [Task(SECOND)]) == [Called(CALL), Task(FIRST), Task(SECOND)];
  }

  lemma IsAccepted()
    ensures Accepted(DEFINITION, PROCESS, None, RANK) && Entry(PROCESS, None) == Some(CALL)
    ensures BodiesAccepted(PROCESS, map[]) && BodiesQuiet(PROCESS, map[])
  {
    hide Built, Clean, Classified, T.Nexts;
    NextNodes();
    IsBuilt();
    IsClean();
    IsClassified();
  }

  /**
   * Every pass accepts the process and it compiles, but its plan runs the call
   * alone: the task before the event is lost from the buffer, the one after it is
   * not entered, and a path through all three is in the graph.
   */
  lemma PlanLosesTasks()
    ensures Accepted(DEFINITION, PROCESS, None, RANK)
    ensures var r := T.CompilePlan(PROCESS, map[], None);
            && r.Done? && r.st.sd.nodes == 5
            && StepsLang(r.st.sd, r.st.loc.steps, Eps()) == Just([Called(CALL)])
            && !PlanIsGraph(PROCESS, map[], None, r.st)
    ensures [Called(CALL), Task(FIRST), Task(SECOND)] in PathLang(PROCESS, map[], CALL, None)
  {
    hide Accepted, T.CompilePlan, StepsLang, S.Held, E.WorkAhead, Entry, FirstDrop, PathLang, PlanIsGraph,
         BodiesAccepted, BodiesQuiet;
    IsAccepted();
    Compiles();
    var r := T.CompilePlan(PROCESS, map[], None);
    StepsLangOne(r.st.sd, CallPlan(CALL), Eps());
    CatEpsRight(Just([Called(CALL)]));
    WayToEvent();
    AcceptedStopsShort(DEFINITION, PROCESS, map[], None, RANK, EVENT);
    FirstIsHeld();
    TasksAreSpelled();
  }
}

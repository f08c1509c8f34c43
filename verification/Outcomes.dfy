/**
 * How an accepted process fares: when its compilation fails, what it has compiled
 * when it does not, and when the path out of a boundary event has steps of its own.
 */
module Outcomes {
  import opened Wrappers
  import opened Graphs
  import opened Bpmn
  import opened Definitions
  import opened BackEdges
  import opened Joins
  import opened Languages
  import opened Plans
  import T = Traversal
  import opened PathLanguage
  import opened PlanMeaning
  import E = EarlyEnds
  import opened Ways
  import F = Failures
  import R = Rejoins
  import opened QuietEnds
  import G = Segments
  import opened Validation
  import opened Depth
  import opened Acceptance

  // ----- what lies ahead in an accepted process -----

  lemma RankedAreKnown(d: Definition, p: T.Process, implicit: Option<Node>, rank: map<Node, nat>)
    requires Accepted(d, p, implicit, rank)
    ensures rank.Keys == p.g.nodes
  {
    hide Ranked, ClosesForwardCycle, Reaches, LoopsGuarded, NothingDangles, GatewaysMatched, SingleExits, NoTraps,
         BoundariesSound, SkipsTasks, TooDeep;
    var start := StartOf(d, implicit).value;
    NodesRanked(d, p.g, p.back, start, rank);
    assert Closed(p.g.outgoing, p.g.nodes) by { FlowsClosed(d, p.g); }
    forall n | n in rank
      ensures n in p.g.nodes
    {
      assert ReachedFrom(p.g.outgoing, Roots(d, start), n);
      var r :| r in Roots(d, start) && Reaches(p.g.outgoing, r, n);
      RootIsKnown(d, p, implicit, r);
      ClosedReaches(p.g.outgoing, p.g.nodes, r, n);
    }
  }

  lemma FlowsClosed(d: Definition, g: Graph)
    requires Built(d, g) && FlowsKnown(d, g)
    ensures Closed(g.outgoing, g.nodes)
  {
    hide Built, HasEdge;
    forall u, v {:trigger HasEdge(g.outgoing, u, v)} | u in g.nodes && HasEdge(g.outgoing, u, v)
      ensures v in g.nodes
    {
      EdgesAreFlows(d, g, u, v);
      assert Known(g, Edge(u, v));
    }
  }

  lemma RootIsKnown(d: Definition, p: T.Process, implicit: Option<Node>, r: Node)
    requires Built(d, p.g) && StartsRightly(d, p, implicit) && StartOf(d, implicit).Some?
    requires r in Roots(d, StartOf(d, implicit).value)
    ensures r in p.g.nodes
  {
    if d.startEvents != [] && r == d.startEvents[0] {
      assert Declares(d, r, StartEvent);
    } else if r != StartOf(d, implicit).value {
      BoundaryIdDeclared(d, r);
    }
  }

  lemma BoundaryIdDeclared(d: Definition, r: Node)
    requires r in BoundaryIds(d.boundaries)
    ensures exists k :: Declares(d, r, k)
  {
    var i :| 0 <= i < |d.boundaries| && BoundaryIds(d.boundaries)[i] == r;
    assert Declares(d, r, BoundaryKind(d.boundaries[i]));
  }

  // A boundary event's flow is kept.
  ghost predicate FollowsKept(p: T.Process, n: Node) {
    IsBoundaryNode(p.g, n) ==> T.Nexts(p, n) == Outs(p.g.outgoing, n)
  }

  lemma KeptFollows(p: T.Process, n: Node, m: Node)
    requires FollowsKept(p, n) && m in Follows(p, n)
    ensures m in T.Nexts(p, n) || m in JoinAfter(p, n)
  {
    hide T.Nexts, JoinAfter, Outs;
  }

  lemma FewFollows(p: T.Process, n: Node)
    requires n in p.skipped || n !in p.g.kind || p.g.kind[n] == BoundaryEvent ==> |T.Nexts(p, n)| <= 1
    ensures |Follows(p, n)| >= 2 ==> R.Splits(p, n)
  {
    hide T.Nexts, Outs, T.JoinAt;
  }

  // What a handler follows in an accepted process are flows kept, and the join of a split.
  lemma AcceptedFollows(d: Definition, p: T.Process, implicit: Option<Node>, rank: map<Node, nat>, n: Node)
    requires Accepted(d, p, implicit, rank) && n in rank
    ensures FollowsKept(p, n) && n in p.g.kind
    ensures n in p.skipped || p.g.kind[n] == BoundaryEvent ==> |T.Nexts(p, n)| <= 1
    ensures IsEnd(p.g, n) ==> n !in p.skipped
  {
    RankedAreKnown(d, p, implicit, rank);
    hide Ranked, Built, Classified, LoopsGuarded, NothingDangles, GatewaysMatched, NoTraps, BoundariesSound,
         FlowsKnown, AllReached, TooDeep, StartsRightly, ForwardOuts, T.Nexts, T.JoinAt, Follows;
    assert n in p.g.kind by { KnownKinds(d, p.g); }
    if IsBoundaryNode(p.g, n) {
      BoundaryGoesOn(d, p, n);
    } else if n in p.skipped {
      SkippedStraight(p, n);
    }
  }

  lemma SkippedStraight(p: T.Process, n: Node)
    requires SkipsTasks(p) && SingleExits(p.g, p.back) && n in p.skipped
    ensures |T.Nexts(p, n)| <= 1
  {
    assert T.Nexts(p, n) == ForwardOuts(p.g.outgoing, p.back, n);
    hide T.Nexts, ForwardOuts;
  }

  lemma EndFollowsNothing(p: T.Process, n: Node)
    requires IsEnd(p.g, n) && n !in p.skipped
    ensures Follows(p, n) == []
  {
  }

  lemma AcceptedDownhill(d: Definition, p: T.Process, implicit: Option<Node>, rank: map<Node, nat>)
    requires Accepted(d, p, implicit, rank)
    ensures R.Setting(p, map[], rank)
  {
    hide Ranked, Built, Clean, ReachedFrom, ClosesForwardCycle, StartsRightly, SkipsTasks, Follows, JoinAfter,
         R.Splits, T.Nexts;
    forall n | n in rank
      ensures forall m :: m in Follows(p, n) ==> m in T.Nexts(p, n) || m in JoinAfter(p, n)
      ensures |Follows(p, n)| >= 2 ==> R.Splits(p, n)
      ensures IsEnd(p.g, n) ==> Follows(p, n) == []
    {
      AcceptedFollows(d, p, implicit, rank, n);
      forall m | m in Follows(p, n)
        ensures m in T.Nexts(p, n) || m in JoinAfter(p, n)
      {
        KeptFollows(p, n, m);
      }
      FewFollows(p, n);
      if IsEnd(p.g, n) {
        EndFollowsNothing(p, n);
      }
    }
  }

  lemma RootRanked(d: Definition, p: T.Process, implicit: Option<Node>, rank: map<Node, nat>, r: Node)
    requires Accepted(d, p, implicit, rank) && F.Root(p, implicit, r)
    ensures r in rank
  {
    hide Ranked, Built, Classified, LoopsGuarded, NothingDangles, GatewaysMatched, NoTraps, BoundariesSound,
         AllReached, TooDeep, StartsRightly, Entry, SkipsTasks, SingleExits;
    RankedAreKnown(d, p, implicit, rank);
    EntryRanked(d, p, implicit, rank);
    if Entry(p, implicit) != Some(r) {
      var be :| be in p.boundaries && T.FirstTarget(p, be) == Some(r);
      EdgesAreFlows(d, p.g, be, r);
      assert Known(p.g, Edge(be, r));
    }
  }

  /** Reached along forward flows from the entry or from where a boundary event leads. */
  ghost predicate ComesTo(p: T.Process, implicit: Option<Node>, n: Node) {
    exists r :: F.Root(p, implicit, r) && Reaches(ForwardGraph(p), r, n)
  }

  lemma EnteredIsReached(d: Definition, p: T.Process, implicit: Option<Node>, rank: map<Node, nat>, n: Node)
    requires Accepted(d, p, implicit, rank) && F.Entered(p, implicit, n)
    ensures ComesTo(p, implicit, n) && n in p.g.nodes
  {
    hide Accepted, F.Root, Ahead, Reaches, ForwardGraph, Downhill;
    var r :| F.Root(p, implicit, r) && Ahead(p, r, None, n);
    RootRanked(d, p, implicit, rank, r);
    RankedAreKnown(d, p, implicit, rank);
    AcceptedDownhill(d, p, implicit, rank);
    AheadReaches(p, rank, r, None, n);
    AheadRank(p, rank, r, None, n);
  }

  // Ids are unique: no node of a body is one of the process.
  ghost predicate BodiesApart(p: T.Process, bodies: T.Bodies) {
    forall k :: k in bodies ==> bodies[k].g.nodes !! p.g.nodes
  }

  lemma InBodyReached(p: T.Process, bodies: T.Bodies, k: Node, n: Node)
    requires BodiesAccepted(p, bodies) && F.InBody(p, bodies, k, n)
    ensures var q := T.Body(p, bodies, k); ComesTo(q, None, n) && n in bodies[k].g.nodes
  {
    hide Accepted, F.Entered, ComesTo;
    var q := T.Body(p, bodies, k);
    var d, rank :| Accepted(d, q, None, rank);
    EnteredIsReached(d, q, None, rank, n);
  }

  lemma AcceptedSetting(d: Definition, p: T.Process, bodies: T.Bodies, implicit: Option<Node>, rank: map<Node, nat>)
    requires Accepted(d, p, implicit, rank) && BodiesAccepted(p, bodies) && BodiesApart(p, bodies)
    ensures R.Setting(p, bodies, rank)
  {
    hide Accepted, BodiesAccepted, Downhill, F.InBody, R.Splits, Follows, ComesTo;
    AcceptedDownhill(d, p, implicit, rank);
    RankedAreKnown(d, p, implicit, rank);
    forall k, m | F.InBody(p, bodies, k, m)
      ensures m !in rank
    {
      InBodyReached(p, bodies, k, m);
      assert k in bodies by { InBodyHas(p, bodies, k, m); }
    }
  }

  lemma InBodyHas(p: T.Process, bodies: T.Bodies, k: Node, n: Node)
    requires F.InBody(p, bodies, k, n)
    ensures k in bodies && k !in p.skipped && HasKind(p.g, k, SubProcess)
  {
  }

  /**
   * Why these kinds may not split: of the nodes that are no end or boundary
   * events, those refused with several flows are exactly those whose handler
   * would leave one of them out.
   */
  lemma RefusedIfLeftOut(p: T.Process, n: Node)
    requires n !in p.skipped && n in p.g.kind && !IsEnd(p.g, n) && !IsBoundaryNode(p.g, n)
    requires |T.Nexts(p, n)| > 1 && T.Nexts(p, n)[1] != T.Nexts(p, n)[0]
    ensures OneOutgoing(p.g.kind[n]) <==> exists m :: m in T.Nexts(p, n) && m !in Follows(p, n)
  {
    hide T.Nexts, JoinAfter;
    assert T.Nexts(p, n)[1] in T.Nexts(p, n);
  }

  // ----- when compilation fails -----

  // n is a sub-process without a body that the process comes to.
  ghost predicate LacksBody(p: T.Process, bodies: T.Bodies, implicit: Option<Node>, n: Node) {
    ComesTo(p, implicit, n) && n !in p.skipped && HasKind(p.g, n, SubProcess) && n !in bodies
  }

  // n is a call the process comes to, of a process that does not compile.
  ghost predicate CallFails(p: T.Process, implicit: Option<Node>, n: Node) {
    ComesTo(p, implicit, n) && n !in p.skipped && HasKind(p.g, n, CallActivity) && n in p.failing
  }

  // A sub-process the process comes to, with its body.
  ghost predicate HasBody(p: T.Process, bodies: T.Bodies, implicit: Option<Node>, k: Node) {
    ComesTo(p, implicit, k) && k !in p.skipped && HasKind(p.g, k, SubProcess) && k in bodies
  }

  /**
   * What an accepted process can fail for: a sub-process it comes to has no body,
   * a call it comes to does not compile, or the same holds in a body it comes to,
   * where no sub-process has a body.
   */
  ghost predicate FailsFor(p: T.Process, bodies: T.Bodies, implicit: Option<Node>, e: T.Error) {
    match e
    case BodyNotFound(n) =>
      || LacksBody(p, bodies, implicit, n)
      || exists k :: HasBody(p, bodies, implicit, k) && LacksBody(T.Body(p, bodies, k), map[], None, n)
    case CallNotCompiled(n) =>
      || CallFails(p, implicit, n)
      || exists k :: HasBody(p, bodies, implicit, k) && CallFails(T.Body(p, bodies, k), None, n)
    case _ => false
  }

  ghost predicate OverBudget(sd: Store) {
    sd.stages > 1000 || sd.nodes > 10000
  }

  lemma FaultIs(p: T.Process, bodies: T.Bodies, n: Node, e: T.Error)
    requires F.Fault(p, bodies, n) == Some(e)
    ensures n !in p.skipped && !e.StageBudgetExceeded?
    ensures e.BodyNotFound? ==> e.node == n && HasKind(p.g, n, SubProcess) && n !in bodies
    ensures e.CallNotCompiled? ==> e.node == n && HasKind(p.g, n, CallActivity) && n in p.failing
  {
    hide T.JoinAt, T.Nexts;
  }

  lemma BodyFault(p: T.Process, bodies: T.Bodies, k: Node, n: Node, e: T.Error)
    requires BodiesAccepted(p, bodies) && F.FailsInBody(p, bodies, k, n, e)
    ensures k in bodies && k !in p.skipped && HasKind(p.g, k, SubProcess) && !e.StageBudgetExceeded?
    ensures e.BodyNotFound? ==> e.node == n && LacksBody(T.Body(p, bodies, k), map[], None, n)
    ensures e.CallNotCompiled? ==> e.node == n && CallFails(T.Body(p, bodies, k), None, n)
  {
    hide BodiesAccepted, ComesTo, F.InBody, F.Fault, T.Body;
    InBodyHas(p, bodies, k, n);
    InBodyReached(p, bodies, k, n);
    FaultIs(T.Body(p, bodies, k), map[], n, e);
  }

  lemma EarnedFails(d: Definition, p: T.Process, bodies: T.Bodies, implicit: Option<Node>, rank: map<Node, nat>,
                    e: T.Error, sd: Store)
    requires Accepted(d, p, implicit, rank) && BodiesAccepted(p, bodies)
    requires F.Earned(p, bodies, F.Region(p, implicit), e, sd) && !T.Unexpected(e)
    ensures (e.StageBudgetExceeded? && OverBudget(sd)) || FailsFor(p, bodies, implicit, e)
  {
    hide Accepted, BodiesAccepted, ComesTo, F.Entered, F.FailsInBody, F.Fault, T.Body;
    if n :| n in F.Region(p, implicit) && F.Fault(p, bodies, n) == Some(e) {
      EnteredIsReached(d, p, implicit, rank, n);
      FaultIs(p, bodies, n, e);
    }
    if k, n :| k in F.Region(p, implicit) && F.FailsInBody(p, bodies, k, n, e) {
      EnteredIsReached(d, p, implicit, rank, k);
      BodyFault(p, bodies, k, n, e);
      assert HasBody(p, bodies, implicit, k);
    }
  }

  lemma PlanFails(d: Definition, p: T.Process, bodies: T.Bodies, implicit: Option<Node>, rank: map<Node, nat>)
    requires Accepted(d, p, implicit, rank) && BodiesAccepted(p, bodies)
    ensures var r := T.CompilePlan(p, bodies, implicit);
            r.Failed? ==>
              (r.error.StageBudgetExceeded? && OverBudget(r.st.sd)) || FailsFor(p, bodies, implicit, r.error)
  {
    hide Built, Classified, Roots, AllReached, FlowsKnown, NothingDangles, LoopsGuarded, SingleExits, NoTraps,
         BoundariesSound, GatewaysMatched, T.CompilePlan, T.SplitsMatched, T.Body, BodiesAccepted, SkipsTasks, TooDeep,
         F.Accounted, F.Earned, F.Region, FailsFor, OverBudget;
    GatewaysTotal(d, p, StartOf(d, implicit).value, rank);
    BodiesMatched(p, bodies);
    assert T.Matched(T.Context(p, bodies, None, false));
    F.PlanFares(p, bodies, implicit);
    var r := T.CompilePlan(p, bodies, implicit);
    if r.Failed? {
      hide Accepted;
      EarnedFails(d, p, bodies, implicit, rank, r.error, r.st.sd);
    }
  }

  /**
   * An accepted process never fails to compile for want of a start or a join, at
   * any nesting of branches and bodies: it fails only for a sub-process without a
   * body or a call that does not compile, one that it comes to, or for a budget
   * that is used up. And where nothing ahead of its entry or a
   * body's entry returns at once, but inside branches that lose nothing by it, and
   * its compilation succeeds, the plan runs exactly the words along its forward
   * paths from the entry.
   */
  lemma AcceptedCompiles(d: Definition, p: T.Process, bodies: T.Bodies, implicit: Option<Node>, rank: map<Node, nat>)
    requires Accepted(d, p, implicit, rank) && BodiesAccepted(p, bodies)
    ensures var r := T.CompilePlan(p, bodies, implicit);
            && (r.Failed? ==>
                  (r.error.StageBudgetExceeded? && OverBudget(r.st.sd)) || FailsFor(p, bodies, implicit, r.error))
            && (r.Done? && EntryQuiet(p, bodies, implicit) && BodiesQuiet(p, bodies) ==>
                PlanIsGraph(p, bodies, implicit, r.st))
  {
    hide Built, Classified, Roots, AllReached, GatewaysMatched, FlowsKnown, NothingDangles, LoopsGuarded,
         SingleExits, NoTraps, BoundariesSound;
    hide T.CompilePlan, T.SplitsMatched, StepsLang, Words, RunsTo, SaneProcess, AcceptedBody, Entry, SaneEntry,
         SkipsTasks, T.Body, BodiesAccepted, BodiesQuiet, BodiesSane, E.BodiesRanked, TooDeep;
    PlanFails(d, p, bodies, implicit, rank);
    if EntryQuiet(p, bodies, implicit) && BodiesQuiet(p, bodies) {
      BodiesServe(p, bodies);
      AcceptedSane(d, p, bodies, implicit, rank);
      CompilationPreservesPaths(p, bodies, rank, implicit);
    }
  }

  lemma BoundaryComes(d: Definition, p: T.Process, bodies: T.Bodies, implicit: Option<Node>, rank: map<Node, nat>,
                      st: T.State, be: Node)
    requires Accepted(d, p, implicit, rank) && BodiesAccepted(p, bodies) && BodiesApart(p, bodies)
    requires IsBoundaryNode(p.g, be)
    ensures var r := T.BoundaryPath(T.Context(p, bodies, None, false), st, be);
            r.Done? && T.BoundaryTask(p, be).Some? && T.BoundaryTask(p, be).value !in st.sd.nodeSegment ==>
              var target := T.FirstTarget(p, be).value;
              var t := T.TraverseNode(T.Context(p, bodies, None, true), T.State(st.sd, T.Fresh(false)), target);
              t.Done? && (t.st.loc.rejoined <==> R.ComesBack(p, target, None, st.sd.visited))
  {
    hide Accepted, BodiesAccepted, R.Setting, R.ComesBack, Ahead, T.TaskAhead, T.TraverseNode, F.Compiles;
    AcceptedSetting(d, p, bodies, implicit, rank);
    if T.FirstTarget(p, be).Some? {
      var target := T.FirstTarget(p, be).value;
      TargetRanked(d, p, implicit, rank, be, target);
      R.NodeComes(T.Context(p, bodies, None, true), rank, T.State(st.sd, T.Fresh(false)), target);
    }
  }

  // ----- what is compiled when it succeeds -----

  // A sub-process has its body, a call compiles.
  predicate Provided(p: T.Process, bodies: T.Bodies, n: Node) {
    n !in p.skipped ==>
      (HasKind(p.g, n, SubProcess) ==> n in bodies) && (HasKind(p.g, n, CallActivity) ==> n !in p.failing)
  }

  ghost predicate AheadOfEntry(p: T.Process, implicit: Option<Node>, n: Node) {
    Entry(p, implicit).Some? && Ahead(p, Entry(p, implicit).value, None, n)
  }

  // The sub-process k was compiled with all of its body.
  ghost predicate BodyProvided(p: T.Process, bodies: T.Bodies, k: Node) {
    k in bodies && k !in p.skipped && HasKind(p.g, k, SubProcess) ==>
      forall n :: AheadOfEntry(T.Body(p, bodies, k), None, n) ==> Provided(T.Body(p, bodies, k), map[], n)
  }

  lemma CompiledProvided(p: T.Process, bodies: T.Bodies, n: Node)
    requires F.Compiles(p, bodies, n)
    ensures Provided(p, bodies, n)
  {
    hide T.JoinAt, T.Nexts, F.BodyCompiles;
  }

  lemma BodyIsProvided(p: T.Process, bodies: T.Bodies, k: Node)
    requires BodiesAccepted(p, bodies) && k in bodies && F.BodyCompiles(p, bodies, k)
    ensures forall n :: AheadOfEntry(T.Body(p, bodies, k), None, n) ==> Provided(T.Body(p, bodies, k), map[], n)
  {
    hide Accepted, R.Setting, Provided, F.Compiles, Ahead, Entry, T.RunProcess, T.Body;
    var q := T.Body(p, bodies, k);
    var d, rank :| Accepted(d, q, None, rank);
    AcceptedDownhill(d, q, None, rank);
    EntryRanked(d, q, None, rank);
    var ctx := T.Context(q, map[], None, false);
    var sd :| T.RunProcess(ctx, T.State(sd, T.Fresh(false))).Done?;
    R.RunComes(ctx, rank, sd);
    forall n | AheadOfEntry(q, None, n)
      ensures Provided(q, map[], n)
    {
      CompiledProvided(q, map[], n);
    }
  }

  /**
   * An accepted process that compiles was within the budgets, and has visited all
   * that lies ahead of its entry; every sub-process there has its body and every
   * call compiles, and so it is in each of those bodies; every task is placed in
   * its own lane and the lanes a call reserves have departments; and each boundary
   * event is handled.
   */
  lemma AcceptedCompiled(d: Definition, p: T.Process, bodies: T.Bodies, implicit: Option<Node>, rank: map<Node, nat>)
    requires Accepted(d, p, implicit, rank) && BodiesAccepted(p, bodies) && BodiesApart(p, bodies)
    ensures var r := T.CompilePlan(p, bodies, implicit);
            r.Done? ==>
              && r.st.sd.nodes <= 10000 && r.st.sd.stages <= 1001
              && forall n :: AheadOfEntry(p, implicit, n) ==>
                  && n in r.st.sd.visited && Provided(p, bodies, n) && BodyProvided(p, bodies, n)
                  && F.Served(p, n, r.st.sd)
    ensures var r := T.CompilePlan(p, bodies, implicit);
            r.Done? ==> forall be :: be in p.boundaries ==> R.EventHandled(p, be, r.st.sd)
  {
    hide Accepted, BodiesAccepted, BodiesApart, R.Setting, Provided, BodyProvided, F.Compiles, Ahead, Entry,
         T.CompilePlan, R.EventHandled, R.TargetsRanked, F.Served;
    AcceptedSetting(d, p, bodies, implicit, rank);
    EntryRanked(d, p, implicit, rank);
    R.PlanComes(p, bodies, rank, implicit);
    F.PlanServes(p, bodies, implicit);
    EventsRanked(d, p, implicit, rank);
    R.PlanHandlesEvents(p, bodies, rank, implicit);
    if T.CompilePlan(p, bodies, implicit).Done? {
      forall n | AheadOfEntry(p, implicit, n)
        ensures Provided(p, bodies, n) && BodyProvided(p, bodies, n)
                && F.Served(p, n, T.CompilePlan(p, bodies, implicit).st.sd)
      {
        assert F.Compiles(p, bodies, n);
        AheadServed(p, bodies, implicit, rank, n);
        CompiledProvided(p, bodies, n);
        BodyOfCompiled(p, bodies, n);
      }
    }
  }

  // A node ahead of the entry is none of a body, so it is served as the process's own.
  lemma AheadServed(p: T.Process, bodies: T.Bodies, implicit: Option<Node>, rank: map<Node, nat>, n: Node)
    requires R.Setting(p, bodies, rank) && AheadOfEntry(p, implicit, n)
    requires Entry(p, implicit).value in rank
    requires var r := T.CompilePlan(p, bodies, implicit);
             F.ServedIn(p, bodies, F.Region(p, implicit), n, r.st.sd)
    ensures F.Served(p, n, T.CompilePlan(p, bodies, implicit).st.sd)
  {
    hide T.CompilePlan, F.Served, F.InBody, F.Region, Downhill, Ahead, Entry;
    AheadRank(p, rank, Entry(p, implicit).value, None, n);
  }

  lemma EventsRanked(d: Definition, p: T.Process, implicit: Option<Node>, rank: map<Node, nat>)
    requires Accepted(d, p, implicit, rank)
    ensures R.TargetsRanked(p, rank, p.boundaries)
  {
    hide Accepted, Entry;
    forall be | be in p.boundaries && T.FirstTarget(p, be).Some?
      ensures T.FirstTarget(p, be).value in rank
    {
      assert F.Root(p, implicit, T.FirstTarget(p, be).value);
      RootRanked(d, p, implicit, rank, T.FirstTarget(p, be).value);
    }
  }

  lemma BodyOfCompiled(p: T.Process, bodies: T.Bodies, n: Node)
    requires BodiesAccepted(p, bodies) && F.Compiles(p, bodies, n)
    ensures BodyProvided(p, bodies, n)
  {
    hide BodiesAccepted, F.Fault, AheadOfEntry, Provided, T.Body, F.BodyCompiles;
    if n in bodies && n !in p.skipped && HasKind(p.g, n, SubProcess) {
      BodyIsProvided(p, bodies, n);
    }
  }

  /** Where nothing ahead of n returns at once, all that is reached along forward flows lies ahead. */
  lemma {:induction false} ReachedIsAhead(d: Definition, p: T.Process, implicit: Option<Node>, rank: map<Node, nat>,
                                          n: Node, m: Node)
    requires Accepted(d, p, implicit, rank) && n in rank && Reaches(ForwardGraph(p), n, m)
    requires forall x :: Reaches(ForwardGraph(p), n, x) ==> !Drops(p, x)
    ensures Ahead(p, n, None, m)
    decreases rank[n]
  {
    hide Accepted, Drops, Reaches, ForwardGraph, Ahead, Follows, T.Nexts;
    if n == m {
      AheadSelf(p, n, None);
    } else {
      var k := ReachesFirst(ForwardGraph(p), n, m);
      NextsAreEdges(p, n);
      EntryRanked(d, p, implicit, rank);
      NextsRanked(p, rank, n);
      forall x | Reaches(ForwardGraph(p), k, x)
        ensures !Drops(p, x)
      {
        ReachesStep(ForwardGraph(p), n, k, x);
      }
      ReachedIsAhead(d, p, implicit, rank, k, m);
      ReachesSelf(ForwardGraph(p), n);
      KeptFollowsAll(d, p, implicit, rank, n, k);
      AheadOnward(p, n, None, m);
    }
  }

  lemma KeptFollowsAll(d: Definition, p: T.Process, implicit: Option<Node>, rank: map<Node, nat>, n: Node, k: Node)
    requires Accepted(d, p, implicit, rank) && n in rank && !Drops(p, n) && k in T.Nexts(p, n)
    ensures k in Follows(p, n)
  {
    RankedAreKnown(d, p, implicit, rank);
    KeptSane(d, p, map[], implicit, n);
    hide Accepted, Drops, T.Nexts, JoinAfter;
    SaneFollows(p, n, k);
  }

  lemma SaneFollows(p: T.Process, n: Node, k: Node)
    requires SaneNode(p, map[], n) && k in T.Nexts(p, n)
    ensures k in Follows(p, n)
  {
    hide T.Nexts, JoinAfter;
    assert |T.Nexts(p, n)| == 1 ==> T.Nexts(p, n) == [k];
  }

  /**
   * What leaves a boundary event of an accepted process has no steps of its own
   * when it comes back: when, going on from where the event leads, it comes to a
   * node other than an end event that was visited, or twice to one. Else, where
   * nothing ahead returns at once but inside branches that lose nothing by it,
   * its steps run its words.
   */
  lemma AcceptedBoundary(d: Definition, p: T.Process, bodies: T.Bodies, implicit: Option<Node>, rank: map<Node, nat>,
                         st: T.State, be: Node, later: Store)
    requires Accepted(d, p, implicit, rank) && BodiesAccepted(p, bodies) && BodiesQuiet(p, bodies)
    requires BodiesApart(p, bodies) && IsBoundaryNode(p.g, be)
    requires T.FirstTarget(p, be).Some? ==> QuietFrom(p, bodies, T.FirstTarget(p, be).value)
    requires G.Sound(st)
    requires var r := T.BoundaryPath(T.Context(p, bodies, None, false), st, be);
             r.Done? ==> G.Kept(r.st.sd, later, None)
    ensures var r := T.BoundaryPath(T.Context(p, bodies, None, false), st, be);
            r.Done? && T.BoundaryTask(p, be).Some? && T.BoundaryTask(p, be).value !in st.sd.nodeSegment ==>
              var target := T.FirstTarget(p, be).value;
              var t := T.TraverseNode(T.Context(p, bodies, None, true), T.State(st.sd, T.Fresh(false)), target);
              if R.ComesBack(p, target, None, st.sd.visited) then r.st.sd == t.st.sd
              else
                && be in r.st.sd.boundarySteps
                && StepsLang(later, r.st.sd.boundarySteps[be], Eps()) == PathLang(p, bodies, target, None)
  {
    hide Accepted, T.BoundaryPath, StepsLang, PathLang, BodiesAccepted, BodiesQuiet, BodiesSane, E.BodiesRanked,
         QuietFrom, G.Sound, G.Kept, T.TaskAhead, T.TraverseNode, Regular, KeptOrDropped;
    BodiesServe(p, bodies);
    if T.FirstTarget(p, be).Some? {
      var target := T.FirstTarget(p, be).value;
      TargetRanked(d, p, implicit, rank, be, target);
      AheadKept(d, p, bodies, implicit, rank, target, None);
      QuietRegular(p, bodies, rank, target);
    }
    BoundaryPathMeans(T.Context(p, bodies, None, false), rank, st, be, later);
    BoundaryComes(d, p, bodies, implicit, rank, st, be);
  }

  lemma TargetRanked(d: Definition, p: T.Process, implicit: Option<Node>, rank: map<Node, nat>, be: Node, target: Node)
    requires Accepted(d, p, implicit, rank) && IsBoundaryNode(p.g, be) && T.FirstTarget(p, be) == Some(target)
    ensures Ranked(ForwardGraph(p), rank) && target in rank && target in p.g.nodes
  {
    hide Reaches, Ranked, ClosesForwardCycle, AllReached, GatewaysMatched, NoTraps, LoopsGuarded, NothingDangles,
         SingleExits, ForwardOuts, Built, FlowsKnown, ReachedFrom, BoundariesSound;
    EntryRanked(d, p, implicit, rank);
    BoundaryIsRoot(d, p.g, StartOf(d, implicit).value, be);
    BoundaryGoesOn(d, p, be);
    assert target in T.Nexts(p, be) by { assert T.Nexts(p, be) == Outs(p.g.outgoing, be); }
    ForwardStep(p.g, p.back, rank, be, target);
    FlowsToKnown(d, p.g, p.back, be, target);
  }
}

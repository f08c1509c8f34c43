/**
 * The way of one state: what it enters itself, outside its branches, lies on
 * every path from where it starts. So a run stopped at such a node shows what
 * the real run has emitted when it gets there.
 */
module Spine {
  import opened Wrappers
  import opened Graphs
  import opened Bpmn
  import opened Languages
  import opened Plans
  import opened PostDominators
  import opened Joins
  import opened Traversal
  import opened Segments
  import opened PathLanguage
  import opened PlanMeaning
  import opened EarlyEnds

  function Until(ctx: Context, d: Node): Context {
    ctx.(stopAt := Some(d))
  }

  // No node on every path from n returns at once before d.
  ghost predicate NoneBefore(p: Process, n: Node, d: Node) {
    forall x :: Drops(p, x) && OnEveryPath(p, x, n) && OnEveryPath(p, d, x) ==> x == d
  }

  // n lies on the way to d, which lies before the context's own stop node.
  ghost predicate OnWay(ctx: Context, rank: map<Node, nat>, n: Node, d: Node) {
    && InRegion(Until(ctx, d), rank, n) && d in rank && !IsEnd(ctx.p.g, d) && NoneBefore(ctx.p, n, d)
    && (ctx.stopAt.Some? ==> OnEveryPath(ctx.p, ctx.stopAt.value, d) && ctx.stopAt.value != d)
  }

  lemma BeforeDrop(ctx: Context, rank: map<Node, nat>, n: Node, d: Node)
    requires OnWay(ctx, rank, n, d) && n != d
    ensures ctx.stopAt != Some(n) && Handled(Until(ctx, d), rank, n) && rank[d] < rank[n] && !IsEnd(ctx.p.g, n)
    ensures SaneNode(ctx.p, ctx.bodies, n) && Nexts(ctx.p, n) != []
  {
    HereOnPath(ctx.p, n);
    hide SaneNode, OnEveryPath, ForwardGraph, Ranked, Nexts, Drops, PathLang, Regular;
    SaneHere(Until(ctx, d), rank, n);
    OnEveryRank(ctx.p, rank, d, n);
    OnEveryNext(ctx.p, d, n);
    if ctx.stopAt.Some? {
      OnEveryRank(ctx.p, rank, ctx.stopAt.value, d);
    }
    EndsNothing(ctx.p, ctx.bodies, n);
  }

  lemma HereOnPath(p: Process, n: Node)
    ensures OnEveryPath(p, n, n)
  {
    hide ForwardGraph;
  }

  // What a state enters next keeps the way free.
  lemma StillFree(ctx: Context, rank: map<Node, nat>, n: Node, d: Node)
    requires OnWay(ctx, rank, n, d) && After(ctx.p, n).Some?
    ensures NoneBefore(ctx.p, After(ctx.p, n).value, d)
  {
    hide OnEveryPath, ForwardGraph, Drops, After, Ranked, Regular;
    var p := ctx.p;
    var m := After(p, n).value;
    AfterMeets(p, rank, n);
    forall x | Drops(p, x) && OnEveryPath(p, x, m) && OnEveryPath(p, d, x)
      ensures x == d
    {
      MeetsOn(p, n, m, x);
    }
  }

  lemma EndsNothing(p: Process, bodies: Bodies, n: Node)
    requires SaneNode(p, bodies, n) && Nexts(p, n) != []
    ensures !IsEnd(p.g, n)
  {
    hide Nexts;
  }

  // ----- what is held back in the buffer -----

  // Whether a state that holds stages back before n does so after it.
  ghost predicate HoldsAfter(p: Process, n: Node, held: bool) {
    if n in p.skipped || n !in p.g.kind then held
    else
      match p.g.kind[n]
      case UserTask => true
      case SendTask => true
      case ReceiveTask => true
      case SubProcess => false
      case CallActivity => false
      case ParallelGateway => held && |Nexts(p, n)| <= 1 && RevertsOf(p, n) == []
      case InclusiveGateway => held && |Nexts(p, n)| <= 1 && RevertsOf(p, n) == []
      case ExclusiveGateway => held && |Nexts(p, n)| <= 1 && RevertsOf(p, n) == []
      case _ => held
  }

  // The node a state enters after n: the join of a split, else the one target.
  ghost function After(p: Process, n: Node): Option<Node> {
    if Nexts(p, n) == [] then None
    else if |Nexts(p, n)| == 1 then Some(Nexts(p, n)[0])
    else JoinAt(p.g.outgoing, p.back, n)
  }

  /** What a state enters after n is on every path from n. */
  lemma AfterMeets(p: Process, rank: map<Node, nat>, n: Node)
    requires Ranked(ForwardGraph(p), rank) && n in rank && After(p, n).Some?
    ensures OnEveryPath(p, After(p, n).value, n)
  {
    hide Ranked, JoinOf, ReachesCycle, JoinAt, Forward;
    var F := ForwardGraph(p);
    NextsAreEdges(p, n);
    if |Nexts(p, n)| == 1 {
      hide Nexts, ForwardGraph;
      forall q | MaxPath(F, q, n)
        ensures Nexts(p, n)[0] in q
      {
        assert |q| > 1 && HasEdge(F, n, q[1]);
        assert q[1] in Nexts(p, n);
      }
    } else {
      RankedAcyclic(F, rank, n);
      JoinExact(p.g.outgoing, p.back, n, JoinAt(p.g.outgoing, p.back, n));
    }
  }

  /** So whatever it comes to by several such steps is on every path from where it started. */
  lemma MeetsOn(p: Process, a: Node, b: Node, c: Node)
    requires OnEveryPath(p, b, a) && OnEveryPath(p, c, b)
    ensures OnEveryPath(p, c, a)
  {
    hide ForwardGraph;
    var F := ForwardGraph(p);
    forall q | MaxPath(F, q, a)
      ensures c in q
    {
      hide Path;
      var i :| 0 <= i < |q| && q[i] == b;
      SuffixIsPath(F, q, i);
      assert MaxPath(F, q[i..], b);
      assert c in q[i..];
    }
  }

  lemma {:induction false} SuffixIsPath(F: Succ, q: seq<Node>, i: nat)
    requires Path(F, q) && i < |q|
    ensures Path(F, q[i..])
  {
    if i > 0 {
      SuffixIsPath(F, q[1..], i - 1);
      assert q[1..][i - 1..] == q[i..];
    } else {
      assert q[0..] == q;
    }
  }

  /**
   * Whether stages are held back when the way from n comes to d: a task is on it,
   * with no split, revert, call or sub-process after.
   */
  ghost predicate Held(p: Process, rank: map<Node, nat>, n: Node, d: Node, held: bool)
    decreases if n in rank then rank[n] else 0
  {
    var next := After(p, n);
    if n == d || n !in rank || next.None? || next.value !in rank || rank[next.value] >= rank[n] then held
    else Held(p, rank, next.value, d, HoldsAfter(p, n, held))
  }

  // ----- the run and the run stopped at d -----

  // r goes on from d, where u, the same traversal stopped at d, has ended.
  ghost predicate GoesOnFrom(ctx: Context, rank: map<Node, nat>, r: Outcome, u: Outcome, d: Node, held: bool) {
    r.Done? && !r.st.loc.rejoined ==>
      && u.Done? && !u.st.loc.rejoined && VisitedAbove(u.st.loc, rank, d)
      && r == TraverseNode(ctx, u.st, d) && (u.st.loc.buf != [] <==> held)
  }

  lemma {:induction false} NodeUntil(ctx: Context, rank: map<Node, nat>, st: State, n: Node, d: Node)
    requires OnWay(ctx, rank, n, d) && VisitedAbove(st.loc, rank, n)
    ensures GoesOnFrom(ctx, rank, TraverseNode(ctx, st, n), TraverseNode(Until(ctx, d), st, n), d,
                       Held(ctx.p, rank, n, d, st.loc.buf != []))
    decreases rank[n], 3
  {
    hide Compile, Matched, InRegion, OnEveryPath, SaneNode, HoldsAfter, JoinAt, Nexts;
    if n != d {
      BeforeDrop(ctx, rank, n, d);
      if !(ctx.stopAtCompiled && n in st.sd.visited) && TraverseNode(ctx, st, n).Done? {
        CompileUntil(ctx, rank, Visit(st, n), n, d);
      }
    }
  }

  // After n, with the buffer as n leaves it, both go on to the one target.
  lemma {:induction false} NextUntil(ctx: Context, rank: map<Node, nat>, st: State, n: Node, d: Node, held: bool)
    requires OnWay(ctx, rank, n, d) && n != d && VisitedFrom(st.loc, rank, n) && |Nexts(ctx.p, n)| == 1
    requires st.loc.buf != [] <==> HoldsAfter(ctx.p, n, held)
    ensures var m := Nexts(ctx.p, n)[0];
            GoesOnFrom(ctx, rank, TraverseNode(ctx, st, m), TraverseNode(Until(ctx, d), st, m), d,
                Held(ctx.p, rank, n, d, held))
    decreases rank[n], 0
  {
    hide TraverseNode, Matched, InRegion, OnEveryPath, SaneNode, HoldsAfter, JoinAt, Nexts;
    BeforeDrop(ctx, rank, n, d);
    var m := Nexts(ctx.p, n)[0];
    NextInRegion(Until(ctx, d), rank, n, m);
    StillFree(ctx, rank, n, d);
    RegionRanked(Until(ctx, d), rank, m);
    NodeUntil(ctx, rank, st, m, d);
  }

  lemma {:induction false} CompileUntil(ctx: Context, rank: map<Node, nat>, st: State, n: Node, d: Node)
    requires OnWay(ctx, rank, n, d) && n != d && VisitedFrom(st.loc, rank, n)
    ensures GoesOnFrom(ctx, rank, Compile(ctx, st, n), Compile(Until(ctx, d), st, n), d,
            Held(ctx.p, rank, n, d, st.loc.buf != []))
    decreases rank[n], 2
  {
    hide TraverseNode, Matched, OnWay, OnEveryPath, HandleGateway, CompileSubProcess, CompileCall, Nexts, JoinAt, Held,
         GoesOnFrom, VisitedFrom, SaneProcess, LatestSegment, AppendStage, RevertsOf, Regular;
    BeforeDrop(ctx, rank, n, d);
    hide Handled;
    if n in ctx.p.skipped || n !in ctx.p.g.kind {
      AllOfOne(ctx, st, n);
      AllOfOne(Until(ctx, d), st, n);
      NextUntil(ctx, rank, st, n, d, st.loc.buf != []);
    } else {
      match ctx.p.g.kind[n]
      case UserTask => TaskUntil(ctx, rank, st, n, d);
      case SendTask => TaskUntil(ctx, rank, st, n, d);
      case ReceiveTask => TaskUntil(ctx, rank, st, n, d);
      case ParallelGateway => GatewayUntil(ctx, rank, st, n, d, false);
      case InclusiveGateway => GatewayUntil(ctx, rank, st, n, d, false);
      case ExclusiveGateway => GatewayUntil(ctx, rank, st, n, d, true);
      case SubProcess => SubProcessUntil(ctx, rank, st, n, d);
      case CallActivity => CallUntil(ctx, rank, st, n, d);
      case TimerBoundaryEvent => NextUntil(ctx, rank, st, n, d, st.loc.buf != []);
      case MessageBoundaryEvent => NextUntil(ctx, rank, st, n, d, st.loc.buf != []);
      case BoundaryEvent =>
        AllOfOne(ctx, st, n);
        AllOfOne(Until(ctx, d), st, n);
        NextUntil(ctx, rank, st, n, d, st.loc.buf != []);
      case _ =>
    }
  }

  lemma AllOfOne(ctx: Context, st: State, n: Node)
    requires |Nexts(ctx.p, n)| == 1
    ensures TraverseAll(ctx, st, Nexts(ctx.p, n)) == TraverseNode(ctx, st, Nexts(ctx.p, n)[0])
  {
    hide TraverseNode, Nexts, Matched;
    assert Nexts(ctx.p, n)[1..] == [];
  }

  lemma {:induction false} TaskUntil(ctx: Context, rank: map<Node, nat>, st: State, n: Node, d: Node)
    requires OnWay(ctx, rank, n, d) && n != d && VisitedFrom(st.loc, rank, n) && |Nexts(ctx.p, n)| == 1
    requires forall held :: HoldsAfter(ctx.p, n, held)
    ensures var st1 := AddTask(ctx.p, st, n);
            GoesOnFrom(ctx, rank, TraverseFirst(ctx, st1, n), TraverseFirst(Until(ctx, d), st1, n), d,
                       Held(ctx.p, rank, n, d, st.loc.buf != []))
    decreases rank[n], 1
  {
    hide TraverseNode, Matched, OnWay, Nexts, JoinAt, Held, GoesOnFrom, HoldsAfter, LatestSegment, AppendStage;
    NextUntil(ctx, rank, AddTask(ctx.p, st, n), n, d, st.loc.buf != []);
  }

  lemma {:induction false} SubProcessUntil(ctx: Context, rank: map<Node, nat>, st: State, n: Node, d: Node)
    requires OnWay(ctx, rank, n, d) && n != d && VisitedFrom(st.loc, rank, n) && |Nexts(ctx.p, n)| == 1
    requires forall held :: !HoldsAfter(ctx.p, n, held)
    ensures GoesOnFrom(ctx, rank, CompileSubProcess(ctx, st, n), CompileSubProcess(Until(ctx, d), st, n), d,
                       Held(ctx.p, rank, n, d, st.loc.buf != []))
    decreases rank[n], 1
  {
    hide TraverseNode, Matched, OnWay, Nexts, JoinAt, Held, HoldsAfter, RunProcess, MarkNodeSegment, FirstDepartment;
    if n in ctx.bodies {
      var r := RunBody(ctx, st, n);
      if r.SubDone? {
        var marked := State(MarkNodeSegment(r.st.sd, n, FirstDepartment(r.steps)), r.st.loc);
        NextUntil(ctx, rank, AddStep(Flush(marked), SubWorkflow(n, r.steps)), n, d, st.loc.buf != []);
      }
    }
  }

  lemma {:induction false} CallUntil(ctx: Context, rank: map<Node, nat>, st: State, n: Node, d: Node)
    requires OnWay(ctx, rank, n, d) && n != d && VisitedFrom(st.loc, rank, n) && |Nexts(ctx.p, n)| == 1
    requires forall held :: !HoldsAfter(ctx.p, n, held)
    ensures GoesOnFrom(ctx, rank, CompileCall(ctx, st, n), CompileCall(Until(ctx, d), st, n), d,
                       Held(ctx.p, rank, n, d, st.loc.buf != []))
    decreases rank[n], 1
  {
    hide TraverseNode, Matched, OnWay, Nexts, JoinAt, Held, HoldsAfter, ReserveLanes;
    if n !in ctx.p.failing {
      var lanes := if n in ctx.p.reserved then ctx.p.reserved[n] else [];
      var reserved := State(ReserveLanes(st.sd, lanes), st.loc);
      NextUntil(ctx, rank, AddStep(Flush(reserved), CallPlan(n)), n, d, st.loc.buf != []);
    }
  }

  lemma {:induction false} GatewayUntil(ctx: Context, rank: map<Node, nat>, st: State, n: Node, d: Node,
      exclusive: bool)
    requires OnWay(ctx, rank, n, d) && n != d && VisitedFrom(st.loc, rank, n) && Nexts(ctx.p, n) != []
    requires forall held :: HoldsAfter(ctx.p, n, held) <==> held && |Nexts(ctx.p, n)| <= 1 && RevertsOf(ctx.p, n) == []
    ensures GoesOnFrom(ctx, rank, HandleGateway(ctx, st, n, exclusive),
                       HandleGateway(Until(ctx, d), st, n, exclusive), d,
                       Held(ctx.p, rank, n, d, st.loc.buf != []))
    decreases rank[n], 1
  {
    hide TraverseNode, Matched, OnWay, Nexts, JoinAt, Held, HoldsAfter, SplitWithJoin, SplitNoJoin, RevertsOf,
         GoesOnFrom;
    var fwd := Nexts(ctx.p, n);
    var reverts := RevertsOf(ctx.p, n);
    if |fwd| <= 1 && reverts == [] {
      NextUntil(ctx, rank, st, n, d, st.loc.buf != []);
    } else if |fwd| <= 1 {
      var step := Gateway([], [Onward(Edge(n, fwd[0]), [], IsEnd(ctx.p.g, fwd[0]))] + reverts);
      NextUntil(ctx, rank, AddStep(Flush(st), step), n, d, st.loc.buf != []);
    } else {
      SplitUntil(ctx, rank, Flush(st), n, d, reverts, exclusive, st.loc.buf != []);
    }
  }

  // A split on the way to d has its join on the way to d.
  lemma {:induction false} SplitUntil(ctx: Context, rank: map<Node, nat>, st: State, n: Node, d: Node,
                                      reverts: seq<Branch>, exclusive: bool, held: bool)
    requires OnWay(ctx, rank, n, d) && n != d && VisitedFrom(st.loc, rank, n) && |Nexts(ctx.p, n)| >= 2
    requires st.loc.buf == [] && !HoldsAfter(ctx.p, n, held)
    ensures JoinAt(ctx.p.g.outgoing, ctx.p.back, n).Some?
    ensures var join := JoinAt(ctx.p.g.outgoing, ctx.p.back, n).value;
            GoesOnFrom(ctx, rank, SplitWithJoin(ctx, st, n, Nexts(ctx.p, n), reverts, join, exclusive),
                       SplitWithJoin(Until(ctx, d), st, n, Nexts(ctx.p, n), reverts, join, exclusive), d,
                       Held(ctx.p, rank, n, d, held))
    decreases rank[n], 0
  {
    hide TraverseNode, Matched, InRegion, Nexts, JoinAt, HoldsAfter, Branches, OnEveryPath;
    var uctx := Until(ctx, d);
    var fwd := Nexts(ctx.p, n);
    BeforeDrop(ctx, rank, n, d);
    if JoinAt(ctx.p.g.outgoing, ctx.p.back, n).None? {
      SplitHasNoStop(uctx, rank, n);
      assert false;
    }
    var join := JoinAt(ctx.p.g.outgoing, ctx.p.back, n).value;
    JoinInRegion(uctx, rank, n, join);
    StillFree(ctx, rank, n, d);
    RegionRanked(uctx, rank, join);
    BranchesAnyStop(ctx, Some(d), st, n, fwd, Some(join), false);
    var b := Branches(ctx, st, n, fwd, Some(join), false);
    if b.Branched? {
      var step := if exclusive then Gateway([], b.branches + reverts) else Gateway(b.branches, reverts);
      NodeUntil(ctx, rank, AddStep(b.st, step), join, d);
    }
  }

  // Branches have stop nodes of their own and leave the state's fields alone.
  lemma {:induction false} BranchesAnyStop(ctx: Context, other: Option<Node>, st: State, n: Node, starts: seq<Node>,
                                           stop: Option<Node>, terminates: bool)
    ensures Branches(ctx, st, n, starts, stop, terminates)
            == Branches(ctx.(stopAt := other), st, n, starts, stop, terminates)
    ensures var r := Branches(ctx, st, n, starts, stop, terminates); r.Branched? ==>
            r.st.loc == st.loc.(rejoined := r.st.loc.rejoined)
    decreases |starts|
  {
    hide TraverseNode, Matched;
    if starts != [] {
      assert ctx.(stopAt := other).(stopAt := stop) == ctx.(stopAt := stop);
      var one := BranchSteps(ctx, st, starts[0], stop);
      if one.SubDone? {
        BranchesAnyStop(ctx, other, one.st, n, starts[1..], stop, terminates);
      }
    }
  }

  // ----- a run that comes to a node that drops -----

  // What the run stopped at d has emitted: the words of the paths up to d, and its steps continue.
  lemma StoppedAt(ctx: Context, rank: map<Node, nat>, sd: Store, n: Node, d: Node, K: Lang)
    requires Sound(State(sd, Fresh(false))) && OnWay(ctx, rank, n, d)
    requires var u := TraverseNode(Until(ctx, d), State(sd, Fresh(false)), n); u.Done? && !u.st.loc.rejoined
    ensures var u := TraverseNode(Until(ctx, d), State(sd, Fresh(false)), n).st;
            Sound(u) && LangOf(u, K) == Cat(PathLang(ctx.p, ctx.bodies, n, Some(d)), K)
  {
    hide Sound, TraverseNode, PathLang, Matched, LangOf, Cat, InRegion, OnEveryPath, Goes;
    var st := State(sd, Fresh(false));
    RegionRanked(Until(ctx, d), rank, n);
    NodeMeans(Until(ctx, d), rank, st, n, K);
    NodeGoes(Until(ctx, d), st, n);
    GoesSound(st, TraverseNode(Until(ctx, d), st, n).st);
    FreshRuns(sd, false, Cat(PathLang(ctx.p, ctx.bodies, n, Some(d)), K));
  }

  // Steps that, with the buffer, run all and only what passes them continue.
  lemma PassesOn(st: State, P: Lang)
    requires P != iset{} && LangOf(st, iset{}) == Cat(P, iset{}) && LangOf(st, Eps()) == Cat(P, Eps())
    ensures Continues(st.sd, st.loc.steps)
  {
    hide StepsLang, Cat, StagesIn, Thru;
    var u := Just(StagesIn(st.sd, st.loc.buf));
    CatNothing(P);
    CatNothing(u);
    CatEpsRight(P);
    CatEpsRight(u);
    StepsSplit(st.sd, st.loc.steps, u);
    StepsSplit(st.sd, st.loc.steps, Eps());
    CatEpsRight(Thru(st.sd, st.loc.steps));
    if Thru(st.sd, st.loc.steps) == iset{} {
      CatNone(u);
    }
  }

  /**
   * A state that starts at n and comes to a node d that returns at once, which is
   * on every path from n. Its steps run exactly the words of the paths from n if
   * and only if no stage is held back at d and no work is ahead of it; once its
   * buffer is flushed, if and only if no work is ahead.
   */
  lemma RunIntoDrop(ctx: Context, rank: map<Node, nat>, sd: Store, n: Node, d: Node)
    requires Sound(State(sd, Fresh(false))) && OnWay(ctx, rank, n, d) && Drops(ctx.p, d) && BodiesRanked(ctx.bodies)
    requires ctx.stopAt.Some? ==> OnEveryPath(ctx.p, ctx.stopAt.value, n)
    ensures var r := TraverseNode(ctx, State(sd, Fresh(false)), n);
            r.Done? && !r.st.loc.rejoined ==>
              var P, ahead := PathLang(ctx.p, ctx.bodies, n, ctx.stopAt), WorkAhead(ctx.p, ctx.bodies, d, ctx.stopAt);
              && (StepsLang(r.st.sd, r.st.loc.steps, Eps()) == P <==> !Held(ctx.p, rank, n, d, false) && !ahead)
              && (StepsLang(r.st.sd, Flush(r.st).loc.steps, Eps()) == P <==> !ahead)
  {
    hide Sound, TraverseNode, PathLang, Matched, LangOf, Cat, OnEveryPath, StepsLang, Continues, WorkAhead, Drops,
         BodiesRanked, Held, Ranked, SaneNode, Flush;
    var st := State(sd, Fresh(false));
    NodeUntil(ctx, rank, st, n, d);
    var r := TraverseNode(ctx, st, n);
    if r.Done? && !r.st.loc.rejoined {
      var u := TraverseNode(Until(ctx, d), st, n).st;
      var P := PathLang(ctx.p, ctx.bodies, n, Some(d));
      StoppedAt(ctx, rank, sd, n, d, iset{});
      StoppedAt(ctx, rank, sd, n, d, Eps());
      StoppedAt(ctx, rank, sd, n, d, PathLang(ctx.p, ctx.bodies, d, ctx.stopAt));
      PathEps(ctx.p, ctx.bodies, rank, n, Some(d));
      PassesOn(u, P);
      LastVisit(ctx, rank, u, d);
      DropMeans(ctx, rank, u, d);
      SplitAt(ctx.p, ctx.bodies, rank, n, d, ctx.stopAt);
    }
  }

  // Both runs done, the real one visits d and ends there.
  lemma LastVisit(ctx: Context, rank: map<Node, nat>, u: State, d: Node)
    requires Drops(ctx.p, d) && VisitedAbove(u.loc, rank, d) && ctx.stopAt != Some(d)
    requires var r := TraverseNode(ctx, u, d); r.Done? && !r.st.loc.rejoined
    ensures TraverseNode(ctx, u, d) == Done(Visit(u, d))
  {
    hide Matched, Compile, Drops;
    DropReturns(ctx, Visit(u, d), d);
    DropEntered(ctx, u, d);
  }

  /**
   * A plan whose main flow comes to a node that returns at once, before any
   * other node that is not sane: the plan means its graph if and only if no
   * stage is held back there and no work is ahead.
   */
  lemma PlanIntoDrop(p: Process, bodies: Bodies, rank: map<Node, nat>, implicit: Option<Node>, d: Node)
    requires Entry(p, implicit).Some? && OnWay(Context(p, bodies, None, false), rank, Entry(p, implicit).value, d)
    requires Drops(p, d) && BodiesRanked(bodies)
    ensures var r := CompilePlan(p, bodies, implicit);
            r.Done? ==>
              (PlanIsGraph(p, bodies, implicit, r.st) <==>
                 !Held(p, rank, Entry(p, implicit).value, d, false) && !WorkAhead(p, bodies, d, None))
  {
    hide Sound, TraverseNode, PathLang, Matched, StepsLang, WorkAhead, Drops, BodiesRanked, Held, OnWay, BoundaryPaths,
         RunsTo, Words, Nexts, Goes, Apart;
    var ctx := Context(p, bodies, None, false);
    var st := State(EMPTY_STORE, Fresh(false));
    var n := Entry(p, implicit).value;
    EmptySound();
    RunIntoDrop(ctx, rank, EMPTY_STORE, n, d);
    var t := TraverseNode(ctx, st, n);
    if t.Done? {
      NodeGoes(ctx, st, n);
      GoesSound(st, t.st);
      BoundaryApart(ctx, t.st, p.boundaries);
      var b := BoundaryPaths(ctx, t.st, p.boundaries);
      if b.Done? {
        ApartSteps(t.st, b.st);
        forall w
          ensures w in PathLang(p, bodies, n, None) <==>
                  exists path :: RunsTo(p, path, n, None) && w in Words(p, bodies, path)
        {
          PathLangWords(p, bodies, n, w);
        }
      }
    }
  }
}

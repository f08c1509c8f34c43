/**
 * The plan means what the graph means: the steps a traversal emits run exactly
 * the words along the forward paths it was asked to compile.
 */
module PlanMeaning {
  import opened Wrappers
  import opened Graphs
  import opened Bpmn
  import opened Languages
  import opened Plans
  import opened PostDominators
  import opened Joins
  import opened Traversal
  import opened Segments
  import opened PathLanguage

  // ----- what the validator accepts -----

  predicate IsGateway(p: Process, n: Node) {
    HasKind(p.g, n, ParallelGateway) || HasKind(p.g, n, InclusiveGateway) || HasKind(p.g, n, ExclusiveGateway)
  }

  // A node its handler leaves along the one forward flow it has.
  predicate GoesStraight(p: Process, n: Node) {
    && |Nexts(p, n)| == 1
    && !HasKind(p.g, n, StartEvent) && !HasKind(p.g, n, ErrorBoundaryEvent)
    && (HasKind(p.g, n, TimerBoundaryEvent) || HasKind(p.g, n, MessageBoundaryEvent) ==>
        FirstTarget(p, n) == Some(Nexts(p, n)[0]))
  }

  // Only end events end a forward path, and only gateways have more than one way on.
  ghost predicate SaneNode(p: Process, bodies: Bodies, n: Node)
    decreases |bodies|, 0
  {
    if IsEnd(p.g, n) then n !in p.skipped && Nexts(p, n) == []
    else if IsGateway(p, n) && n !in p.skipped then Nexts(p, n) != []
    else
      && (GoesStraight(p, n) || (n in p.skipped && |Nexts(p, n)| == 1))
      && (HasKind(p.g, n, SubProcess) && n in bodies ==> SaneProcess(Body(p, bodies, n), map[]))
  }

  /**
   * n's handler returns at once: it emits nothing, flushes nothing and goes
   * nowhere. Of the nodes an accepted process has these are start events, error
   * boundary events, and message boundary events without outgoing flow.
   */
  predicate Drops(p: Process, n: Node) {
    if n in p.skipped || n !in p.g.kind then Nexts(p, n) == [] && !IsEnd(p.g, n)
    else
      match p.g.kind[n]
      case StartEvent => true
      case ErrorBoundaryEvent => true
      case TimerBoundaryEvent => FirstTarget(p, n).None?
      case MessageBoundaryEvent => FirstTarget(p, n).None?
      case BoundaryEvent => Nexts(p, n) == []
      case _ => false
  }

  lemma DropReturns(ctx: Context, st: State, n: Node)
    requires Drops(ctx.p, n)
    ensures Compile(ctx, st, n) == Done(st)
    ensures NodeLang(ctx.p, ctx.bodies, n) == Eps() && !IsEnd(ctx.p.g, n)
  {
    hide Matched, Nexts;
  }

  lemma SaneGoesOn(p: Process, bodies: Bodies, n: Node)
    requires SaneNode(p, bodies, n)
    ensures !Drops(p, n)
  {
    hide Nexts, SaneProcess;
  }

  // Up to its stop node a branch loses nothing at n.
  ghost predicate Quiet(p: Process, bodies: Bodies, n: Node, stop: Option<Node>) {
    stop.Some? && Drops(p, n) && PathLang(p, bodies, n, stop) == Eps()
  }

  // What is compiled from the targets of n is regular: the branches and the join of a split, else the one way on.
  ghost predicate RegularOnward(p: Process, bodies: Bodies, rank: map<Node, nat>, n: Node, stop: Option<Node>)
    requires n in rank
    decreases |bodies|, 1, rank[n], 0
  {
    if |Nexts(p, n)| < 2 then
      forall m :: m in Nexts(p, n) ==> m in rank && rank[m] < rank[n] && Regular(p, bodies, rank, m, stop)
    else
      match JoinAt(p.g.outgoing, p.back, n)
      case None =>
        forall m :: m in Nexts(p, n) ==> m in rank && rank[m] < rank[n] && Regular(p, bodies, rank, m, None)
      case Some(j) =>
        && j in rank && rank[j] < rank[n] && Regular(p, bodies, rank, j, stop)
        && forall m :: m in Nexts(p, n) ==> m in rank && rank[m] < rank[n] && Regular(p, bodies, rank, m, Some(j))
  }

  /** From n to the stop node every node compiled is sane, but for those where a branch loses nothing. */
  ghost predicate Regular(p: Process, bodies: Bodies, rank: map<Node, nat>, n: Node, stop: Option<Node>)
    requires n in rank
    decreases |bodies|, 1, rank[n], 1
  {
    || stop == Some(n)
    || Quiet(p, bodies, n, stop)
    || (SaneNode(p, bodies, n) && RegularOnward(p, bodies, rank, n, stop))
  }

  ghost predicate SaneFrom(p: Process, bodies: Bodies, rank: map<Node, nat>)
    decreases |bodies|, 2
  {
    && Ranked(ForwardGraph(p), rank)
    && (p.start.Some? && Nexts(p, p.start.value) != [] ==>
          var m := Nexts(p, p.start.value)[0]; m in rank && Regular(p, bodies, rank, m, None))
  }

  /** The forward flows from the start drop in some rank, and what is compiled from it is regular. */
  ghost predicate SaneProcess(p: Process, bodies: Bodies)
    decreases |bodies|, 3
  {
    exists rank :: SaneFrom(p, bodies, rank)
  }

  // n can be compiled up to the context's stop node, which lies on every path from it.
  ghost predicate InRegion(ctx: Context, rank: map<Node, nat>, n: Node) {
    && Ranked(ForwardGraph(ctx.p), rank) && n in rank && Regular(ctx.p, ctx.bodies, rank, n, ctx.stopAt)
    && (ctx.stopAt.Some? ==> OnEveryPath(ctx.p, ctx.stopAt.value, n))
  }

  // n comes before the stop node, and its handler compiles it.
  ghost predicate Handled(ctx: Context, rank: map<Node, nat>, n: Node) {
    InRegion(ctx, rank, n) && ctx.stopAt != Some(n) && SaneNode(ctx.p, ctx.bodies, n)
  }

  // The state's own visits all lie before n.
  ghost predicate VisitedAbove(loc: Local, rank: map<Node, nat>, n: Node) {
    n in rank && forall v :: v in loc.visited && v in rank ==> rank[v] > rank[n]
  }

  // Nothing runs after an end event.
  ghost predicate Fits(ctx: Context, K: Lang) {
    ctx.stopAt.None? || IsEnd(ctx.p.g, ctx.stopAt.value) ==> K == Eps()
  }

  // ----- what a state has emitted so far -----

  ghost function LangOf(st: State, K: Lang): Lang {
    StepsLang(st.sd, st.loc.steps, Cat(Just(StagesIn(st.sd, st.loc.buf)), K))
  }

  ghost predicate Means(ctx: Context, st: State, st': State, n: Node, K: Lang) {
    && (!st'.loc.rejoined ==> LangOf(st', K) == LangOf(st, Cat(PathLang(ctx.p, ctx.bodies, n, ctx.stopAt), K)))
    && (ctx.stopAt.None? && !ctx.stopAtCompiled ==> st'.loc.buf == [])
  }

  lemma KeptLang(sd: Store, sd': Store, except: Option<Segment>, steps: seq<Step>, K: Lang)
    requires Kept(sd, sd', except) && AllFilled(sd, SegsOf(steps))
    requires except.Some? ==> except.value !in SegsOf(steps)
    ensures StepsLang(sd, steps, K) == StepsLang(sd', steps, K)
  {
    hide StepsLang, StagesOf, SegsOf;
    SameLang(sd, sd', steps, K);
  }

  lemma TaskRuns(p: Process, st: State, n: Node, K: Lang)
    requires Sound(st)
    ensures LangOf(AddTask(p, st, n), K) == LangOf(st, Cat(Just([Task(n)]), K))
  {
    hide StepsLang, StagesOf, SegsOf, AddTask, StagesIn, StoreOk, Kept, Cat, AllFilled;
    AddTaskGoes(p, st, n);
    KeptLang(st.sd, AddTask(p, st, n).sd, st.loc.open, st.loc.steps,
        Cat(Just(StagesIn(st.sd, st.loc.buf) + [Task(n)]), K));
    CatJust(StagesIn(st.sd, st.loc.buf), [Task(n)], K);
  }

  lemma FlushRuns(st: State, K: Lang)
    ensures LangOf(Flush(st), K) == LangOf(st, K)
  {
    hide StepsLang, Cat, StagesOf;
    if st.loc.buf != [] {
      var step := Sequential(st.loc.buf);
      StepsLangAppend(st.sd, st.loc.steps, [step], Cat(Just([]), K));
      StepsLangOne(st.sd, step, Cat(Just([]), K));
      CatEpsLeft(K);
      assert Eps() == Just([]);
    }
  }

  lemma StepRuns(st: State, step: Step, K: Lang)
    requires st.loc.buf == []
    ensures LangOf(AddStep(st, step), K) == LangOf(st, StepLang(st.sd, step, K))
  {
    hide StepsLang, StepLang, Cat, StagesOf;
    StepsLangAppend(st.sd, st.loc.steps, [step], K);
    StepsLangOne(st.sd, step, K);
    CatEpsLeft(K);
    CatEpsLeft(StepLang(st.sd, step, K));
    assert Eps() == Just([]);
  }

  lemma EmptyBufferRuns(st: State, K: Lang)
    requires st.loc.buf == []
    ensures LangOf(st, K) == StepsLang(st.sd, st.loc.steps, K)
  {
    hide StepsLang, Cat;
    CatEpsLeft(K);
    assert Eps() == Just([]);
  }

  lemma ApartRuns(st: State, s: State, K: Lang)
    requires Sound(st) && Apart(st, s)
    ensures LangOf(s, K) == LangOf(st, K)
  {
    hide StepsLang, Cat, StagesOf, SegsOf, StagesIn;
    forall t | t in st.loc.buf
      ensures StagesOf(st.sd, t) == StagesOf(s.sd, t)
    {
      assert t in BufSegs(st.loc.buf);
      assert Filled(st.sd, t);
    }
    SameStagesIn(st.sd, s.sd, st.loc.buf);
    KeptLang(st.sd, s.sd, None, st.loc.steps, Cat(Just(StagesIn(st.sd, st.loc.buf)), K));
  }

  lemma VisitRuns(st: State, n: Node, K: Lang)
    requires Sound(st)
    ensures LangOf(Visit(st, n), K) == LangOf(st, K)
    ensures Sound(Visit(st, n))
  {
    hide StepsLang, Cat, StagesOf, SegsOf, StagesIn, LangOf, Kept;
    ShowStoreOk(st);
    SameDeptsKept(st.sd, Visit(st, n).sd);
    hide StoreOk;
    BackApart(st, Visit(st, n).sd, Visit(st, n).loc);
    hide Apart, Sound;
    ApartSound(st, Visit(st, n));
    ApartRuns(st, Visit(st, n), K);
  }

  // What a fresh state has emitted is nothing.
  lemma FreshRuns(sd: Store, rejoined: bool, K: Lang)
    ensures LangOf(State(sd, Fresh(rejoined)), K) == K
  {
    CatEpsLeft(K);
    assert Eps() == Just([]);
  }

  // ----- the region compiled -----

  lemma HandledOnward(ctx: Context, rank: map<Node, nat>, n: Node)
    requires Handled(ctx, rank, n)
    ensures RegularOnward(ctx.p, ctx.bodies, rank, n, ctx.stopAt)
  {
    SaneGoesOn(ctx.p, ctx.bodies, n);
    hide SaneNode, RegularOnward, Drops, Ranked, OnEveryPath, PathLang;
  }

  lemma NextInRegion(ctx: Context, rank: map<Node, nat>, n: Node, m: Node)
    requires Handled(ctx, rank, n) && m in Nexts(ctx.p, n)
    requires |Nexts(ctx.p, n)| < 2 || (ctx.stopAt == None && JoinAt(ctx.p.g.outgoing, ctx.p.back, n).None?)
    ensures InRegion(ctx, rank, m) && rank[m] < rank[n]
  {
    HandledOnward(ctx, rank, n);
    hide Nexts, SaneNode, OnEveryPath, ForwardGraph, Ranked, Regular, JoinAt;
    if ctx.stopAt.Some? {
      OnEveryNext(ctx.p, ctx.stopAt.value, n);
    }
  }

  // A node without a forward flow is the stop node, or there is none.
  lemma SinkStops(ctx: Context, rank: map<Node, nat>, n: Node)
    requires InRegion(ctx, rank, n) && Nexts(ctx.p, n) == []
    ensures ctx.stopAt == None || ctx.stopAt == Some(n)
  {
    hide Nexts, SaneNode, OnEveryPath, ForwardGraph, Ranked;
    if ctx.stopAt.Some? && ctx.stopAt != Some(n) {
      OnEveryNext(ctx.p, ctx.stopAt.value, n);
    }
  }

  // A node of the region is compiled, unless it is the stop node or nothing is lost at it.
  lemma SaneHere(ctx: Context, rank: map<Node, nat>, n: Node)
    requires InRegion(ctx, rank, n) && ctx.stopAt != Some(n)
    ensures Quiet(ctx.p, ctx.bodies, n, ctx.stopAt) || Handled(ctx, rank, n)
  {
    hide SaneNode, OnEveryPath, ForwardGraph, Ranked, RegularOnward, Quiet;
  }

  lemma EndLang(ctx: Context, rank: map<Node, nat>, n: Node, K: Lang)
    requires InRegion(ctx, rank, n) && IsEnd(ctx.p.g, n) && Fits(ctx, K)
    ensures Cat(PathLang(ctx.p, ctx.bodies, n, ctx.stopAt), K) == Eps() && K == Eps()
  {
    hide Nexts, OnEveryPath, ForwardGraph, Ranked, Cat, PathLang;
    if ctx.stopAt == Some(n) {
      AtStop(ctx.p, ctx.bodies, n);
    } else {
      SaneHere(ctx, rank, n);
      hide Regular;
      SinkStops(ctx, rank, n);
      AtSink(ctx.p, ctx.bodies, n);
      assert NodeLang(ctx.p, ctx.bodies, n) == Eps();
    }
    CatEpsLeft(K);
  }

  // The join the index gives is the nearest node every path from the split passes.
  lemma JoinHere(ctx: Context, rank: map<Node, nat>, n: Node)
    requires Handled(ctx, rank, n) && |Nexts(ctx.p, n)| >= 2
    ensures IsImmediate(ForwardGraph(ctx.p), n, JoinAt(ctx.p.g.outgoing, ctx.p.back, n))
  {
    hide IsImmediate, JoinOf, ReachesCycle, Ranked, SaneNode, OnEveryPath;
    RankedAcyclic(ForwardGraph(ctx.p), rank, n);
    JoinExact(ctx.p.g.outgoing, ctx.p.back, n, JoinAt(ctx.p.g.outgoing, ctx.p.back, n));
  }

  lemma SplitHasNoStop(ctx: Context, rank: map<Node, nat>, n: Node)
    requires Handled(ctx, rank, n) && |Nexts(ctx.p, n)| >= 2
    requires JoinAt(ctx.p.g.outgoing, ctx.p.back, n).None?
    ensures ctx.stopAt == None
  {
    hide PostDominates, JoinAt, Ranked, SaneNode, Nexts, ForwardGraph;
    JoinHere(ctx, rank, n);
  }

  lemma JoinInRegion(ctx: Context, rank: map<Node, nat>, n: Node, join: Node)
    requires Handled(ctx, rank, n) && |Nexts(ctx.p, n)| >= 2
    requires JoinAt(ctx.p.g.outgoing, ctx.p.back, n) == Some(join)
    ensures OnEveryPath(ctx.p, join, n) && join != n
    ensures InRegion(ctx, rank, join) && rank[join] < rank[n]
    ensures forall m :: m in Nexts(ctx.p, n) ==> InRegion(ctx.(stopAt := Some(join)), rank, m) && rank[m] < rank[n]
  {
    HandledOnward(ctx, rank, n);
    hide PostDominates, JoinAt, Ranked, SaneNode, Nexts, ForwardGraph, Regular;
    JoinHere(ctx, rank, n);
    OnEveryNext(ctx.p, join, n);
  }

  ghost predicate VisitedFrom(loc: Local, rank: map<Node, nat>, n: Node) {
    n in rank && forall v :: v in loc.visited && v in rank ==> rank[v] >= rank[n]
  }

  // ----- the traversal, node by node -----

  lemma {:induction false} NodeMeans(ctx: Context, rank: map<Node, nat>, st: State, n: Node, K: Lang)
    requires Sound(st) && InRegion(ctx, rank, n) && VisitedAbove(st.loc, rank, n) && Fits(ctx, K)
    ensures var r := TraverseNode(ctx, st, n); r.Done? ==> Means(ctx, st, r.st, n, K)
    decreases |ctx.bodies|, rank[n], 9
  {
    hide Sound, Compile, Matched, PathLang, Cat, LangOf, SaneNode, Regular, OnEveryPath, SaneFrom;
    if ctx.stopAt == Some(n) {
      AtStop(ctx.p, ctx.bodies, n);
      CatEpsLeft(K);
    } else if ctx.stopAtCompiled && n in st.sd.visited {
      if IsEnd(ctx.p.g, n) {
        EndLang(ctx, rank, n, K);
      }
    } else {
      var r := TraverseNode(ctx, st, n);
      if r.Done? {
        VisitRuns(st, n, Cat(PathLang(ctx.p, ctx.bodies, n, ctx.stopAt), K));
        CompileMeans(ctx, rank, Visit(st, n), n, K);
      }
    }
  }

  lemma SingleNext(p: Process, bodies: Bodies, n: Node, stop: Option<Node>)
    requires Some(n) != stop && |Nexts(p, n)| == 1
    ensures PathLang(p, bodies, n, stop) == Cat(NodeLang(p, bodies, n), PathLang(p, bodies, Nexts(p, n)[0], stop))
  {
    hide PathLang, Cat, NodeLang, Nexts;
    var ms := Nexts(p, n);
    Onwards(p, bodies, n, stop);
    assert NextsLang(p, bodies, ms[1..], stop) == iset{};
    assert NextsLang(p, bodies, ms, stop) == PathLang(p, bodies, ms[0], stop);
  }

  // A node has run its own word and goes on along its one forward flow.
  lemma {:induction false} StraightMeans(ctx: Context, rank: map<Node, nat>, st: State, st1: State, n: Node, K: Lang)
    requires Sound(st1) && Handled(ctx, rank, n) && VisitedFrom(st1.loc, rank, n) && Fits(ctx, K)
    requires |Nexts(ctx.p, n)| == 1
    requires var Y := Cat(PathLang(ctx.p, ctx.bodies, Nexts(ctx.p, n)[0], ctx.stopAt), K);
             LangOf(st1, Y) == LangOf(st, Cat(NodeLang(ctx.p, ctx.bodies, n), Y))
    ensures var r := TraverseNode(ctx, st1, Nexts(ctx.p, n)[0]); r.Done? ==> Means(ctx, st, r.st, n, K)
    decreases |ctx.bodies|, rank[n], 1
  {
    hide Sound, Matched, PathLang, Cat, LangOf, SaneNode, Regular, OnEveryPath, TraverseNode, NodeLang, Nexts;
    var m := Nexts(ctx.p, n)[0];
    NextInRegion(ctx, rank, n, m);
    NodeMeans(ctx, rank, st1, m, K);
    SingleNext(ctx.p, ctx.bodies, n, ctx.stopAt);
    CatAssoc(NodeLang(ctx.p, ctx.bodies, n), PathLang(ctx.p, ctx.bodies, m, ctx.stopAt), K);
  }

  lemma {:induction false} TaskMeans(ctx: Context, rank: map<Node, nat>, st: State, n: Node, K: Lang)
    requires Sound(st) && Handled(ctx, rank, n) && VisitedFrom(st.loc, rank, n) && Fits(ctx, K)
    requires |Nexts(ctx.p, n)| == 1
    requires NodeLang(ctx.p, ctx.bodies, n) == Just([Task(n)])
    ensures var r := TraverseFirst(ctx, AddTask(ctx.p, st, n), n); r.Done? ==> Means(ctx, st, r.st, n, K)
    decreases |ctx.bodies|, rank[n], 2
  {
    hide Sound, Matched, PathLang, Cat, LangOf, InRegion, TraverseNode, NodeLang, Nexts, Means, Goes, LatestSegment,
         AppendStage, AddToBuf;
    AddTaskGoes(ctx.p, st, n);
    GoesSound(st, AddTask(ctx.p, st, n));
    TaskRuns(ctx.p, st, n, Cat(PathLang(ctx.p, ctx.bodies, Nexts(ctx.p, n)[0], ctx.stopAt), K));
    StraightMeans(ctx, rank, st, AddTask(ctx.p, st, n), n, K);
  }

  // A node that only passes on.
  lemma {:induction false} PassMeans(ctx: Context, rank: map<Node, nat>, st: State, n: Node, K: Lang)
    requires Sound(st) && Handled(ctx, rank, n) && VisitedFrom(st.loc, rank, n) && Fits(ctx, K)
    requires |Nexts(ctx.p, n)| == 1
    requires NodeLang(ctx.p, ctx.bodies, n) == Eps()
    ensures var r := TraverseNode(ctx, st, Nexts(ctx.p, n)[0]); r.Done? ==> Means(ctx, st, r.st, n, K)
    ensures TraverseAll(ctx, st, Nexts(ctx.p, n)) == TraverseNode(ctx, st, Nexts(ctx.p, n)[0])
    decreases |ctx.bodies|, rank[n], 2
  {
    hide Sound, Matched, PathLang, Cat, LangOf, InRegion, TraverseNode, NodeLang, Nexts, Means;
    CatEpsLeft(Cat(PathLang(ctx.p, ctx.bodies, Nexts(ctx.p, n)[0], ctx.stopAt), K));
    StraightMeans(ctx, rank, st, st, n, K);
    assert Nexts(ctx.p, n)[1..] == [];
  }

  lemma {:induction false} CompileMeans(ctx: Context, rank: map<Node, nat>, st: State, n: Node, K: Lang)
    requires Sound(st) && InRegion(ctx, rank, n) && VisitedFrom(st.loc, rank, n) && Fits(ctx, K)
    requires ctx.stopAt != Some(n)
    ensures var r := Compile(ctx, st, n); r.Done? ==> Means(ctx, st, r.st, n, K)
    decreases |ctx.bodies|, rank[n], 8
  {
    hide Sound, Matched, PathLang, Cat, LangOf, OnEveryPath, VisitedFrom, BodyLang, TraverseNode, TraverseAll,
         HandleGateway, CompileSubProcess, CompileCall, Nexts, Means, Flush, AddTask;
    SaneHere(ctx, rank, n);
    if Quiet(ctx.p, ctx.bodies, n, ctx.stopAt) {
      QuietMeans(ctx, st, n, K);
      return;
    }
    hide Regular, Fits, InRegion;
    if n in ctx.p.skipped || n !in ctx.p.g.kind {
      PassMeans(ctx, rank, st, n, K);
    } else {
      match ctx.p.g.kind[n]
      case EndEvent => EndMeans(ctx, rank, st, n, K);
      case UserTask => TaskMeans(ctx, rank, st, n, K);
      case SendTask => TaskMeans(ctx, rank, st, n, K);
      case ReceiveTask => TaskMeans(ctx, rank, st, n, K);
      case ParallelGateway => GatewayMeans(ctx, rank, st, n, false, K);
      case InclusiveGateway => GatewayMeans(ctx, rank, st, n, false, K);
      case ExclusiveGateway => GatewayMeans(ctx, rank, st, n, true, K);
      case SubProcess => SubProcessMeans(ctx, rank, st, n, K);
      case CallActivity => CallMeans(ctx, rank, st, n, K);
      case TimerBoundaryEvent => PassMeans(ctx, rank, st, n, K);
      case MessageBoundaryEvent => PassMeans(ctx, rank, st, n, K);
      case BoundaryEvent => PassMeans(ctx, rank, st, n, K);
      case _ =>
    }
  }

  // Nothing is lost where nothing would have run.
  lemma QuietMeans(ctx: Context, st: State, n: Node, K: Lang)
    requires Quiet(ctx.p, ctx.bodies, n, ctx.stopAt)
    ensures Compile(ctx, st, n) == Done(st) && Means(ctx, st, st, n, K)
  {
    hide PathLang, Cat, LangOf, Drops, Compile, Matched;
    DropReturns(ctx, st, n);
    CatEpsLeft(K);
  }

  lemma EndMeans(ctx: Context, rank: map<Node, nat>, st: State, n: Node, K: Lang)
    requires InRegion(ctx, rank, n) && Fits(ctx, K) && IsEnd(ctx.p.g, n)
    ensures Means(ctx, st, Flush(st), n, K)
  {
    hide PathLang, Cat, LangOf, InRegion, Fits;
    EndLang(ctx, rank, n, K);
    FlushRuns(st, K);
  }

  lemma {:induction false} GatewayMeans(ctx: Context, rank: map<Node, nat>, st: State, n: Node, exclusive: bool,
                                        K: Lang)
    requires Sound(st) && Handled(ctx, rank, n) && VisitedFrom(st.loc, rank, n) && Fits(ctx, K)
    requires Nexts(ctx.p, n) != [] && NodeLang(ctx.p, ctx.bodies, n) == Eps()
    ensures var r := HandleGateway(ctx, st, n, exclusive); r.Done? ==> Means(ctx, st, r.st, n, K)
    decreases |ctx.bodies|, rank[n], 7
  {
    hide Sound, Matched, PathLang, Cat, LangOf, InRegion, TraverseNode, NodeLang, Nexts, Means, SingleForward,
         SplitNoJoin, SplitWithJoin, JoinAt, Reverts, Fits, Goes;
    var fwd := Nexts(ctx.p, n);
    var reverts := RevertsOf(ctx.p, n);
    if |fwd| <= 1 && reverts == [] {
      PassMeans(ctx, rank, st, n, K);
    } else {
      FlushGoes(st);
      GoesSound(st, Flush(st));
      FlushRuns(st, Cat(PathLang(ctx.p, ctx.bodies, n, ctx.stopAt), K));
      if |fwd| <= 1 {
        SingleMeans(ctx, rank, Flush(st), n, reverts, K);
      } else if JoinAt(ctx.p.g.outgoing, ctx.p.back, n).None? {
        NoJoinMeans(ctx, rank, Flush(st), n, reverts, exclusive, K);
      } else {
        WithJoinMeans(ctx, rank, Flush(st), n, reverts, JoinAt(ctx.p.g.outgoing, ctx.p.back, n).value, exclusive, K);
      }
      if HandleGateway(ctx, st, n, exclusive).Done? {
        MeansThrough(ctx, st, Flush(st), HandleGateway(ctx, st, n, exclusive).st, n, K);
      }
    }
  }

  lemma MeansThrough(ctx: Context, st: State, st1: State, st': State, n: Node, K: Lang)
    requires Means(ctx, st1, st', n, K)
    requires var X := Cat(PathLang(ctx.p, ctx.bodies, n, ctx.stopAt), K); LangOf(st1, X) == LangOf(st, X)
    ensures Means(ctx, st, st', n, K)
  {
    hide PathLang, Cat, LangOf;
  }

  // A gateway step with one onward branch that carries only a condition.
  lemma ConditionRuns(sd: Store, flow: Edge, terminates: bool, reverts: seq<Branch>, Y: Lang)
    requires (forall b :: b in reverts ==> b.Revert?) && (terminates ==> Y == Eps())
    ensures StepLang(sd, Gateway([], [Onward(flow, [], terminates)] + reverts), Y) == Y
    ensures StepSegs(Gateway([], [Onward(flow, [], terminates)] + reverts)) == {}
  {
    var onward := Onward(flow, [], terminates);
    BranchesAppend(sd, [onward], reverts, Y);
    RevertsRunNothing(sd, reverts, Y);
    assert [onward][1..] == [];
    assert BranchLang(sd, onward, Y) == Y;
    assert BranchSegs(onward) == SegsOf([]);
    assert BranchesLang(sd, [onward], Y) == Y;
  }

  lemma {:induction false} SingleMeans(ctx: Context, rank: map<Node, nat>, st: State, n: Node, reverts: seq<Branch>,
                                       K: Lang)
    requires Sound(st) && st.loc.buf == [] && Handled(ctx, rank, n) && VisitedFrom(st.loc, rank, n) && Fits(ctx, K)
    requires |Nexts(ctx.p, n)| == 1 && NodeLang(ctx.p, ctx.bodies, n) == Eps()
    requires forall b :: b in reverts ==> b.Revert?
    ensures var r := SingleForward(ctx, st, n, Nexts(ctx.p, n), reverts); r.Done? ==> Means(ctx, st, r.st, n, K)
    decreases |ctx.bodies|, rank[n], 6
  {
    hide Sound, Matched, PathLang, Cat, LangOf, InRegion, TraverseNode, NodeLang, Nexts, Means, Fits, Goes, StepLang,
         StepSegs;
    var m := Nexts(ctx.p, n)[0];
    var Y := Cat(PathLang(ctx.p, ctx.bodies, m, ctx.stopAt), K);
    NextInRegion(ctx, rank, n, m);
    if IsEnd(ctx.p.g, m) {
      EndLang(ctx, rank, m, K);
    }
    ConditionRuns(st.sd, Edge(n, m), IsEnd(ctx.p.g, m), reverts, Y);
    var step := Gateway([], [Onward(Edge(n, m), [], IsEnd(ctx.p.g, m))] + reverts);
    StepRuns(st, step, Y);
    CatEpsLeft(Y);
    AddStepGoes(st, step);
    GoesSound(st, AddStep(st, step));
    StraightMeans(ctx, rank, st, AddStep(st, step), n, K);
  }

  lemma {:induction false} NoJoinMeans(ctx: Context, rank: map<Node, nat>, st: State, n: Node, reverts: seq<Branch>,
                                       exclusive: bool, K: Lang)
    requires Sound(st) && st.loc.buf == [] && Handled(ctx, rank, n) && Fits(ctx, K)
    requires |Nexts(ctx.p, n)| >= 2 && NodeLang(ctx.p, ctx.bodies, n) == Eps()
    requires JoinAt(ctx.p.g.outgoing, ctx.p.back, n).None?
    requires forall b :: b in reverts ==> b.Revert?
    ensures var r := SplitNoJoin(ctx, st, n, Nexts(ctx.p, n), reverts, exclusive); r.Done? ==>
            Means(ctx, st, r.st, n, K)
    decreases |ctx.bodies|, rank[n], 6
  {
    hide Sound, Matched, PathLang, Cat, LangOf, Regular, NodeLang, Nexts, Goes, Apart, Branches, JoinAt, OnEveryPath;
    if exclusive {
      var fwd := Nexts(ctx.p, n);
      SplitHasNoStop(ctx, rank, n);
      forall m | m in fwd
        ensures InRegion(ctx, rank, m) && rank[m] < rank[n]
      {
        NextInRegion(ctx, rank, n, m);
      }
      assert ctx.(stopAt := None) == ctx;
      BranchesApart(ctx, st, n, fwd, None, true);
      BranchesMean(ctx, rank, rank[n], st, n, fwd, None, true, K);
      var r := Branches(ctx, st, n, fwd, None, true);
      if r.Branched? {
        SplitEnds(ctx, st, r.st, n, r.branches, reverts, K);
      }
    }
  }

  // The branches of a split that never meet again, put in their gateway step.
  lemma SplitEnds(ctx: Context, st: State, s: State, n: Node, bs: seq<Branch>, reverts: seq<Branch>, K: Lang)
    requires Sound(st) && Apart(st, s) && st.loc.buf == [] && ctx.stopAt == None && Fits(ctx, K)
             && Nexts(ctx.p, n) != []
    requires NodeLang(ctx.p, ctx.bodies, n) == Eps()
    requires forall b :: b in reverts ==> b.Revert?
    requires !s.loc.rejoined ==>
             BranchesLang(s.sd, bs, K) == Cat(NextsLang(ctx.p, ctx.bodies, Nexts(ctx.p, n), None), Eps())
    ensures Means(ctx, st, AddStep(s, Gateway([], bs + reverts)), n, K)
  {
    var step := Gateway([], bs + reverts);
    GatewayLang(s.sd, bs, reverts, true, K);
    hide Sound, PathLang, Cat, LangOf, NodeLang, Nexts, BranchesLang, StepLang;
    var N := NextsLang(ctx.p, ctx.bodies, Nexts(ctx.p, n), None);
    Onwards(ctx.p, ctx.bodies, n, None);
    CatEpsLeft(N);
    CatEpsRight(N);
    ApartRuns(st, s, N);
    StepRuns(s, step, K);
  }

  lemma GatewayLang(sd: Store, bs: seq<Branch>, reverts: seq<Branch>, exclusive: bool, K: Lang)
    requires forall b :: b in reverts ==> b.Revert?
    ensures var step := if exclusive then Gateway([], bs + reverts) else Gateway(bs, reverts);
            StepLang(sd, step, K) == BranchesLang(sd, bs, K) && StepSegs(step) == BranchesSegs(bs)
  {
    BranchesAppend(sd, bs, reverts, K);
    RevertsRunNothing(sd, reverts, K);
  }

  lemma {:induction false} WithJoinMeans(ctx: Context, rank: map<Node, nat>, st: State, n: Node,
                                         reverts: seq<Branch>, join: Node, exclusive: bool, K: Lang)
    requires Sound(st) && st.loc.buf == [] && Handled(ctx, rank, n) && VisitedFrom(st.loc, rank, n) && Fits(ctx, K)
    requires |Nexts(ctx.p, n)| >= 2 && NodeLang(ctx.p, ctx.bodies, n) == Eps()
    requires JoinAt(ctx.p.g.outgoing, ctx.p.back, n) == Some(join)
    requires forall b :: b in reverts ==> b.Revert?
    ensures var r := SplitWithJoin(ctx, st, n, Nexts(ctx.p, n), reverts, join, exclusive); r.Done? ==>
            Means(ctx, st, r.st, n, K)
    decreases |ctx.bodies|, rank[n], 6
  {
    hide Sound, Matched, PathLang, Cat, LangOf, Regular, NodeLang, Nexts, Goes, Apart, Branches, JoinAt, TraverseNode,
         OnEveryPath, Means;
    var fwd := Nexts(ctx.p, n);
    var Y := Cat(PathLang(ctx.p, ctx.bodies, join, ctx.stopAt), K);
    JoinInRegion(ctx, rank, n, join);
    if IsEnd(ctx.p.g, join) {
      EndLang(ctx, rank, join, K);
    }
    BranchesApart(ctx, st, n, fwd, Some(join), false);
    BranchesMean(ctx, rank, rank[n], st, n, fwd, Some(join), false, Y);
    var r := Branches(ctx, st, n, fwd, Some(join), false);
    if r.Branched? {
      var step := if exclusive then Gateway([], r.branches + reverts) else Gateway(r.branches, reverts);
      GatewayLang(r.st.sd, r.branches, reverts, exclusive, Y);
      StepAfterBranches(st, r.st, step);
      GoesSound(st, AddStep(r.st, step));
      BranchesVisitNothing(ctx, st, n, fwd, Some(join), false);
      assert VisitedAbove(AddStep(r.st, step).loc, rank, join);
      NodeMeans(ctx, rank, AddStep(r.st, step), join, K);
      var t := TraverseNode(ctx, AddStep(r.st, step), join);
      if t.Done? {
        SplitMeets(ctx, rank, st, r.st, t.st, n, join, step, K);
      }
    }
  }

  // A split whose branches meet at the join: up to it, then on from it.
  lemma SplitMeets(ctx: Context, rank: map<Node, nat>, st: State, s: State, t: State, n: Node, join: Node,
                   step: Step, K: Lang)
    requires Sound(st) && Apart(st, s) && st.loc.buf == [] && InRegion(ctx, rank, n) && InRegion(ctx, rank, join)
    requires ctx.stopAt != Some(n) && Nexts(ctx.p, n) != [] && NodeLang(ctx.p, ctx.bodies, n) == Eps()
    requires OnEveryPath(ctx.p, join, n) && join != n
    requires !s.loc.rejoined ==>
             var Y := Cat(PathLang(ctx.p, ctx.bodies, join, ctx.stopAt), K);
             StepLang(s.sd, step, Y) == Cat(NextsLang(ctx.p, ctx.bodies, Nexts(ctx.p, n), Some(join)), Y)
    requires Means(ctx, AddStep(s, step), t, join, K) && (s.loc.rejoined ==> t.loc.rejoined)
    ensures Means(ctx, st, t, n, K)
  {
    hide Sound, PathLang, Cat, LangOf, NodeLang, Nexts, StepLang, OnEveryPath, SaneNode, NextsLang, Ranked,
         ForwardGraph;
    var N := NextsLang(ctx.p, ctx.bodies, Nexts(ctx.p, n), Some(join));
    var P := PathLang(ctx.p, ctx.bodies, join, ctx.stopAt);
    if !t.loc.rejoined {
      SplitAt(ctx.p, ctx.bodies, rank, n, join, ctx.stopAt);
      Onwards(ctx.p, ctx.bodies, n, Some(join));
      CatEpsLeft(N);
      CatAssoc(N, P, K);
      StepRuns(s, step, Cat(P, K));
      ApartRuns(st, s, Cat(N, Cat(P, K)));
    }
  }

  // Branches are visited by states of their own.
  lemma {:induction false} BranchesVisitNothing(ctx: Context, st: State, n: Node, starts: seq<Node>,
                                                stop: Option<Node>, terminates: bool)
    ensures var r := Branches(ctx, st, n, starts, stop, terminates); r.Branched? ==> r.st.loc.visited == st.loc.visited
    decreases |starts|
  {
    hide TraverseNode, Matched;
    if starts != [] {
      var one := BranchSteps(ctx, st, starts[0], stop);
      if one.SubDone? {
        BranchesVisitNothing(ctx, one.st, n, starts[1..], stop, terminates);
      }
    }
  }

  lemma {:induction false} BranchesMean(ctx: Context, rank: map<Node, nat>, bound: nat, st: State, n: Node,
                                        starts: seq<Node>, stop: Option<Node>, terminates: bool, K: Lang)
    requires Sound(st)
    requires forall m :: m in starts ==> InRegion(ctx.(stopAt := stop), rank, m) && rank[m] < bound
    requires Fits(ctx.(stopAt := stop), if terminates then Eps() else K)
    ensures var r := Branches(ctx, st, n, starts, stop, terminates);
            r.Branched? && !r.st.loc.rejoined ==>
              BranchesLang(r.st.sd, r.branches, K) == Cat(NextsLang(ctx.p, ctx.bodies, starts, stop), if terminates
                  then Eps() else K)
    decreases |ctx.bodies|, bound, 0, |starts|
  {
    hide Sound, Matched, PathLang, Cat, Regular, Apart, BranchSteps, Fits, SegsOf, StepsLang, Kept, AllFilled,
         OnEveryPath;
    var K' := if terminates then Eps() else K;
    if starts == [] {
      CatNone(K');
    } else {
      var one := BranchSteps(ctx, st, starts[0], stop);
      BranchApart(ctx, st, starts[0], stop);
      BranchMeans(ctx, rank, st, starts[0], stop, K');
      if one.SubDone? {
        ApartSound(st, one.st);
        var rest := Branches(ctx, one.st, n, starts[1..], stop, terminates);
        BranchesApart(ctx, one.st, n, starts[1..], stop, terminates);
        BranchesMean(ctx, rank, bound, one.st, n, starts[1..], stop, terminates, K);
        if rest.Branched? && !rest.st.loc.rejoined {
          ApartSound(one.st, rest.st);
          KeptLang(one.st.sd, rest.st.sd, None, one.steps, K');
          var b := Onward(Edge(n, starts[0]), one.steps, terminates);
          assert ([b] + rest.branches)[1..] == rest.branches;
          CatUnion(PathLang(ctx.p, ctx.bodies, starts[0], stop), NextsLang(ctx.p, ctx.bodies, starts[1..], stop), K');
        }
      }
    }
  }

  lemma {:induction false} BranchMeans(ctx: Context, rank: map<Node, nat>, st: State, start: Node,
                                       stop: Option<Node>, K: Lang)
    requires Sound(st) && InRegion(ctx.(stopAt := stop), rank, start) && Fits(ctx.(stopAt := stop), K)
    ensures var r := BranchSteps(ctx, st, start, stop);
            r.SubDone? && !r.st.loc.rejoined ==>
                StepsLang(r.st.sd, r.steps, K) == Cat(PathLang(ctx.p, ctx.bodies, start, stop), K)
    decreases |ctx.bodies|, rank[start], 10
  {
    hide Sound, Matched, PathLang, Cat, LangOf, InRegion, Fits, StepsLang, TraverseNode;
    var bctx := ctx.(stopAt := stop);
    var sub := State(st.sd, Fresh(st.loc.rejoined));
    FreshSound(st, st.loc.rejoined);
    assert VisitedAbove(sub.loc, rank, start) by {
      assert start in rank by { RegionRanked(bctx, rank, start); }
    }
    NodeMeans(bctx, rank, sub, start, K);
    var r := TraverseNode(bctx, sub, start);
    if r.Done? {
      FlushRuns(r.st, K);
      FlushedRuns(r.st, K);
      FreshRuns(st.sd, st.loc.rejoined, Cat(PathLang(ctx.p, ctx.bodies, start, stop), K));
    }
  }

  lemma RegionRanked(ctx: Context, rank: map<Node, nat>, n: Node)
    requires InRegion(ctx, rank, n)
    ensures n in rank
  {
  }

  lemma FlushedRuns(st: State, K: Lang)
    ensures LangOf(Flush(st), K) == StepsLang(st.sd, Flush(st).loc.steps, K)
  {
    CatEpsLeft(K);
    assert Eps() == Just([]);
  }

  // ----- sub-processes and calls -----

  // The buffer is flushed, a step appended that runs the node's own words, and the one flow taken.
  lemma {:induction false} StepThenStraight(ctx: Context, rank: map<Node, nat>, st: State, s: State, step: Step,
                                            n: Node, K: Lang)
    requires Sound(st) && Apart(st, s) && s.loc.visited == st.loc.visited
    requires Handled(ctx, rank, n) && VisitedFrom(st.loc, rank, n) && Fits(ctx, K)
    requires |Nexts(ctx.p, n)| == 1
    requires AllFilled(s.sd, StepSegs(step))
    requires var Y := Cat(PathLang(ctx.p, ctx.bodies, Nexts(ctx.p, n)[0], ctx.stopAt), K);
             StepLang(s.sd, step, Y) == Cat(NodeLang(ctx.p, ctx.bodies, n), Y)
    ensures var r := TraverseFirst(ctx, AddStep(Flush(s), step), n); r.Done? ==> Means(ctx, st, r.st, n, K)
    decreases |ctx.bodies|, rank[n], 2
  {
    hide Sound, Matched, PathLang, Cat, LangOf, InRegion, TraverseNode, NodeLang, Nexts, Means, Fits, Goes, StepLang,
         StepSegs, AllFilled;
    var Y := Cat(PathLang(ctx.p, ctx.bodies, Nexts(ctx.p, n)[0], ctx.stopAt), K);
    FlushGoes(s);
    GoesSound(s, Flush(s));
    AddStepGoes(Flush(s), step);
    GoesSound(Flush(s), AddStep(Flush(s), step));
    StepRuns(Flush(s), step, Y);
    FlushRuns(s, StepLang(s.sd, step, Y));
    ApartRuns(st, s, StepLang(s.sd, step, Y));
    StraightMeans(ctx, rank, st, AddStep(Flush(s), step), n, K);
  }

  lemma {:induction false} SubProcessMeans(ctx: Context, rank: map<Node, nat>, st: State, n: Node, K: Lang)
    requires Sound(st) && Handled(ctx, rank, n) && VisitedFrom(st.loc, rank, n) && Fits(ctx, K)
    requires |Nexts(ctx.p, n)| == 1
    requires n in ctx.bodies ==> SaneProcess(Body(ctx.p, ctx.bodies, n), map[])
    requires n in ctx.bodies ==> NodeLang(ctx.p, ctx.bodies, n) == BodyLang(ctx.p, ctx.bodies, n)
    ensures var r := CompileSubProcess(ctx, st, n); r.Done? ==> Means(ctx, st, r.st, n, K)
    decreases |ctx.bodies|, rank[n], 3
  {
    hide Sound, Matched, PathLang, Cat, InRegion, Nexts, Means, Fits, Apart, RunBody, TraverseFirst, BodyLang,
         NodeLang, Body, SaneProcess, FirstDepartment, AddStep, StepsLang, SegsOf, AllFilled, MarkNodeSegment;
    if n in ctx.bodies {
      var b := RunBody(ctx, st, n);
      RunBodyApart(ctx, st, n);
      RunBodyMeans(ctx, st, n);
      if b.SubDone? {
        var seg := FirstDepartment(b.steps);
        FirstRead(b.steps);
        var marked := State(MarkNodeSegment(b.st.sd, n, seg), b.st.loc);
        BodyMarked(st, b.st, n, seg, SegsOf(b.steps));
        BodyStored(st, b.st, n, seg, b.steps);
        StepThenStraight(ctx, rank, st, marked, SubWorkflow(n, b.steps), n, K);
      }
    }
  }

  lemma BodyStored(st: State, s: State, n: Node, seg: Option<Segment>, steps: seq<Step>)
    requires Sound(st) && Apart(st, s) && AllFilled(s.sd, SegsOf(steps)) && (seg.Some? ==> seg.value in SegsOf(steps))
    ensures StepsLang(MarkNodeSegment(s.sd, n, seg), steps, Eps()) == StepsLang(s.sd, steps, Eps())
  {
    hide Sound, Kept, Filled, SegsOf, StepsLang, MarkNodeSegment;
    ApartSound(st, s);
    ShowStoreOk(s);
    MarkKept(s.sd, n, seg);
    hide AllFilled;
    KeptLang(s.sd, MarkNodeSegment(s.sd, n, seg), None, steps, Eps());
  }

  lemma {:induction false} RunBodyMeans(ctx: Context, st: State, n: Node)
    requires Sound(st) && n in ctx.bodies && SaneProcess(Body(ctx.p, ctx.bodies, n), map[])
    ensures var r := RunBody(ctx, st, n);
            r.SubDone? ==> StepsLang(r.st.sd, r.steps, Eps()) == BodyLang(ctx.p, ctx.bodies, n)
    ensures var r := RunBody(ctx, st, n); r.SubDone? ==> r.st.loc == st.loc
    decreases |ctx.bodies|, 0, 0
  {
    hide Sound, Matched, RunProcess, SaneProcess, ProcessLang, StepsLang;
    assert |ctx.bodies| > 0;
    FreshSound(st, false);
    ProcessMeans(Context(Body(ctx.p, ctx.bodies, n), map[], None, false), st.sd);
  }

  /**
   * The plan of a process runs exactly the words along the forward paths from
   * its start event to an end event.
   */
  lemma {:induction false} ProcessMeans(ctx: Context, sd: Store)
    requires Sound(State(sd, Fresh(false))) && SaneProcess(ctx.p, ctx.bodies) && ctx.stopAt == None
             && !ctx.stopAtCompiled
    ensures var r := RunProcess(ctx, State(sd, Fresh(false)));
            r.Done? ==>
              StepsLang(r.st.sd, r.st.loc.steps, Eps()) == ProcessLang(ctx.p, ctx.bodies) && r.st.loc.buf == []
    decreases |ctx.bodies|
  {
    hide Sound, Matched, TraverseNode, BoundaryPaths, PathLang, Nexts, Regular, LangOf, StepsLang, Cat, SegsOf, Kept,
         AllFilled;
    var st := State(sd, Fresh(false));
    var r := if ctx.p.start.None? then Done(st) else TraverseFirst(ctx, st, ctx.p.start.value);
    FreshRuns(sd, false, ProcessLang(ctx.p, ctx.bodies));
    if ctx.p.start.Some? && Nexts(ctx.p, ctx.p.start.value) != [] {
      var rank :| SaneFrom(ctx.p, ctx.bodies, rank);
      var m := Nexts(ctx.p, ctx.p.start.value)[0];
      NodeMeans(ctx, rank, st, m, Eps());
      NodeGoes(ctx, st, m);
      CatEpsRight(PathLang(ctx.p, ctx.bodies, m, None));
    } else {
      FreshRuns(sd, false, Eps());
      GoesSelf(st);
    }
    if r.Done? {
      EmptyBufferRuns(r.st, Eps());
      GoesSound(st, r.st);
      BoundaryApart(ctx, r.st, ctx.p.boundaries);
      var b := BoundaryPaths(ctx, r.st, ctx.p.boundaries);
      if b.Done? {
        ApartSteps(r.st, b.st);
      }
    }
  }

  lemma ApartSteps(st: State, s: State)
    requires Sound(st) && Apart(st, s)
    ensures StepsLang(s.sd, s.loc.steps, Eps()) == StepsLang(st.sd, st.loc.steps, Eps()) && s.loc.buf == st.loc.buf
  {
    hide Kept, SegsOf, StepsLang, StoreOk, AllFilled;
    KeptLang(st.sd, s.sd, None, st.loc.steps, Eps());
  }

  lemma {:induction false} CallMeans(ctx: Context, rank: map<Node, nat>, st: State, n: Node, K: Lang)
    requires Sound(st) && Handled(ctx, rank, n) && VisitedFrom(st.loc, rank, n) && Fits(ctx, K)
    requires |Nexts(ctx.p, n)| == 1 && NodeLang(ctx.p, ctx.bodies, n) == Just([Called(n)])
    ensures var r := CompileCall(ctx, st, n); r.Done? ==> Means(ctx, st, r.st, n, K)
    decreases |ctx.bodies|, rank[n], 3
  {
    hide Sound, Matched, PathLang, Cat, InRegion, Nexts, Means, Fits, Apart, TraverseFirst, NodeLang, AddStep,
         StepsLang, SegsOf, ReserveLanes;
    if n !in ctx.p.failing {
      var lanes := if n in ctx.p.reserved then ctx.p.reserved[n] else [];
      ReservedApart(st, lanes);
      StepThenStraight(ctx, rank, st, State(ReserveLanes(st.sd, lanes), st.loc), CallPlan(n), n, K);
    }
  }

  // ----- the main results -----

  ghost predicate SaneEntry(p: Process, bodies: Bodies, rank: map<Node, nat>, implicit: Option<Node>) {
    && Ranked(ForwardGraph(p), rank)
    && (Entry(p, implicit).Some? ==>
          Entry(p, implicit).value in rank && Regular(p, bodies, rank, Entry(p, implicit).value, None))
  }

  /** The plan's words are exactly those along the forward paths from the entry to where they end. */
  ghost predicate PlanIsGraph(p: Process, bodies: Bodies, implicit: Option<Node>, st: State) {
    forall w :: w in StepsLang(st.sd, st.loc.steps, Eps()) <==>
                if Entry(p, implicit).None? then w == []
                else exists path :: RunsTo(p, path, Entry(p, implicit).value, None) && w in Words(p, bodies, path)
  }

  /**
   * Compilation preserves paths: where it succeeds, the plan's words are exactly
   * those along the forward paths from the entry to an end event.
   */
  lemma CompilationPreservesPaths(p: Process, bodies: Bodies, rank: map<Node, nat>, implicit: Option<Node>)
    requires SaneEntry(p, bodies, rank, implicit)
    ensures var r := CompilePlan(p, bodies, implicit);
            r.Done? ==> PlanIsGraph(p, bodies, implicit, r.st)
  {
    hide Sound, Matched, TraverseNode, BoundaryPaths, PathLang, Nexts, Regular, LangOf, StepsLang, Cat, SegsOf, Kept,
         AllFilled, RunsTo, Words, NodeLang;
    var r := CompilePlan(p, bodies, implicit);
    var ctx := Context(p, bodies, None, false);
    var st := State(EMPTY_STORE, Fresh(false));
    EmptySound();
    if p.start.Some? {
      assert SaneProcess(p, bodies) by {
        assert SaneFrom(p, bodies, rank);
      }
      ProcessMeans(ctx, EMPTY_STORE);
    } else if implicit.Some? {
      NodeRuns(ctx, rank, EMPTY_STORE, implicit.value);
    }
    if r.Done? && Entry(p, implicit).Some? {
      var n := Entry(p, implicit).value;
      forall w
        ensures w in PathLang(p, bodies, n, None) <==>
                exists path :: RunsTo(p, path, n, None) && w in Words(p, bodies, path)
      {
        PathLangWords(p, bodies, n, w);
      }
    }
  }

  lemma PathLangWords(p: Process, bodies: Bodies, n: Node, w: Word)
    ensures w in PathLang(p, bodies, n, None) <==>
            exists path :: RunsTo(p, path, n, None) && w in Words(p, bodies, path)
  {
    hide PathLang, Words, RunsTo;
    if w in PathLang(p, bodies, n, None) {
      var path := SpelledBy(p, bodies, n, None, w);
    }
    if path :| RunsTo(p, path, n, None) && w in Words(p, bodies, path) {
      PathSpells(p, bodies, n, None, path, w);
    }
  }

  // From its entry to its boundary paths, a process runs the words from the entry.
  lemma NodeRuns(ctx: Context, rank: map<Node, nat>, sd: Store, n: Node)
    requires Sound(State(sd, Fresh(false))) && InRegion(ctx, rank, n) && ctx.stopAt == None && !ctx.stopAtCompiled
    ensures var r := TraverseNode(ctx, State(sd, Fresh(false)), n);
            r.Done? ==>
              var b := BoundaryPaths(ctx, r.st, ctx.p.boundaries);
              b.Done? ==> StepsLang(b.st.sd, b.st.loc.steps, Eps()) == PathLang(ctx.p, ctx.bodies, n, None)
  {
    hide Sound, Matched, TraverseNode, BoundaryPaths, PathLang, Nexts, Regular, LangOf, StepsLang, Cat, SegsOf, Kept,
         AllFilled;
    var st := State(sd, Fresh(false));
    NodeMeans(ctx, rank, st, n, Eps());
    NodeGoes(ctx, st, n);
    CatEpsRight(PathLang(ctx.p, ctx.bodies, n, None));
    FreshRuns(sd, false, PathLang(ctx.p, ctx.bodies, n, None));
    var r := TraverseNode(ctx, st, n);
    if r.Done? {
      EmptyBufferRuns(r.st, Eps());
      GoesSound(st, r.st);
      BoundaryApart(ctx, r.st, ctx.p.boundaries);
      if BoundaryPaths(ctx, r.st, ctx.p.boundaries).Done? {
        ApartSteps(r.st, BoundaryPaths(ctx, r.st, ctx.p.boundaries).st);
      }
    }
  }

  /**
   * What leaves a boundary event and never rejoins the main flow: its own steps
   * run exactly the words along the forward paths from where it leads.
   */
  lemma ContinuationMeans(p: Process, bodies: Bodies, rank: map<Node, nat>, sd: Store, target: Node)
    requires Sound(State(sd, Fresh(false))) && InRegion(Context(p, bodies, None, true), rank, target)
    ensures var r := TraverseNode(Context(p, bodies, None, true), State(sd, Fresh(false)), target);
            r.Done? && !r.st.loc.rejoined ==>
              StepsLang(r.st.sd, Flush(r.st).loc.steps, Eps()) == PathLang(p, bodies, target, None)
  {
    hide Sound, Matched, TraverseNode, PathLang, Regular, LangOf, StepsLang, Cat;
    var ctx := Context(p, bodies, None, true);
    var st := State(sd, Fresh(false));
    NodeMeans(ctx, rank, st, target, Eps());
    CatEpsRight(PathLang(p, bodies, target, None));
    FreshRuns(sd, false, PathLang(p, bodies, target, None));
    var r := TraverseNode(ctx, st, target);
    if r.Done? {
      FlushRuns(r.st, Eps());
      FlushedRuns(r.st, Eps());
    }
  }

  /**
   * What the plan holds for a boundary event: nothing of its own when it leads to
   * no task or to one that is placed already, and then that task's segment has
   * stages; nothing when its path rejoined the main flow; else steps that run,
   * in every later store, exactly the words along the paths from where it leads.
   */
  lemma BoundaryPathMeans(ctx: Context, rank: map<Node, nat>, st: State, be: Node, later: Store)
    requires Sound(st)
    requires FirstTarget(ctx.p, be).Some? ==>
               InRegion(Context(ctx.p, ctx.bodies, None, true), rank, FirstTarget(ctx.p, be).value)
    requires BoundaryPath(ctx, st, be).Done? ==> Kept(BoundaryPath(ctx, st, be).st.sd, later, None)
    ensures var r := BoundaryPath(ctx, st, be);
            var task := BoundaryTask(ctx.p, be);
            r.Done? ==>
              if task.None? then r.st == st
              else if task.value in st.sd.nodeSegment then r.st == st && Filled(later, st.sd.nodeSegment[task.value])
              else
                var target := FirstTarget(ctx.p, be).value;
                var t := TraverseNode(Context(ctx.p, ctx.bodies, None, true), State(st.sd, Fresh(false)), target);
                if t.st.loc.rejoined then r.st.sd == t.st.sd
                else
                  && be in r.st.sd.boundarySteps
                  && StepsLang(later, r.st.sd.boundarySteps[be], Eps()) == PathLang(ctx.p, ctx.bodies, target, None)
  {
    hide Goes, TraverseNode, Matched, SegsOf, AllFilled, TaskAhead, Flush, Regular, PathLang, StepsLang, Counted,
         StagesOf,
         Kept, Filled, InRegion;
    var task := BoundaryTask(ctx.p, be);
    var r := BoundaryPath(ctx, st, be);
    if r.Done? && task.Some? {
      if task.value in st.sd.nodeSegment {
        KeptFilled(st.sd, later, st.sd.nodeSegment[task.value]);
      } else {
        var target := FirstTarget(ctx.p, be).value;
        var path := Context(ctx.p, ctx.bodies, None, true);
        var sub := State(st.sd, Fresh(false));
        FreshSound(st, false);
        ContinuationMeans(ctx.p, ctx.bodies, rank, st.sd, target);
        NodeGoes(path, sub, target);
        var t := TraverseNode(path, sub, target);
        GoesSound(sub, t.st);
        if !t.st.loc.rejoined {
          FlushGoes(t.st);
          GoesSound(t.st, Flush(t.st));
          SameDeptsKept(t.st.sd, r.st.sd);
          KeptTrans(t.st.sd, r.st.sd, later);
          FlushedFilled(t.st);
          KeptLang(t.st.sd, later, None, Flush(t.st).loc.steps, Eps());
        }
      }
    }
  }

  lemma KeptFilled(sd: Store, sd': Store, s: Segment)
    requires Kept(sd, sd', None) && Filled(sd, s)
    ensures Filled(sd', s)
  {
    hide Filled, StagesOf;
  }

  lemma FlushedFilled(st: State)
    requires Sound(Flush(st))
    ensures AllFilled(st.sd, SegsOf(Flush(st).loc.steps))
  {
    hide StoreOk, AllFilled, SegsOf;
  }
}

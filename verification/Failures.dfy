/**
 * When a compilation fails: every error is earned by a node the traversal came
 * to, or by a budget that is used up, and what it came to without failing is sound.
 */
module Failures {
  import opened Wrappers
  import opened Graphs
  import opened Bpmn
  import opened Languages
  import opened Plans
  import opened Traversal
  import opened PathLanguage
  import opened Ways

  /** What compiling n fails for outright. */
  ghost function Fault(p: Process, bodies: Bodies, n: Node): Option<Error> {
    if n in p.skipped then None
    else if HasKind(p.g, n, SubProcess) && n !in bodies then Some(BodyNotFound(n))
    else if HasKind(p.g, n, CallActivity) && n in p.failing then Some(CallNotCompiled(n))
    else if Balanced(p, n) && |Nexts(p, n)| >= 2 && JoinAt(p.g.outgoing, p.back, n).None? then Some(NoMatchingJoin(n))
    else None
  }

  // The body of the sub-process n compiles, from some store.
  ghost predicate BodyCompiles(p: Process, bodies: Bodies, n: Node)
    requires n in bodies
  {
    exists sd :: RunProcess(Context(Body(p, bodies, n), map[], None, false), State(sd, Fresh(false))).Done?
  }

  /** n fails for nothing, and if it is a sub-process, its body compiles. */
  ghost predicate Compiles(p: Process, bodies: Bodies, n: Node) {
    && Fault(p, bodies, n).None?
    && (n !in p.skipped && HasKind(p.g, n, SubProcess) && n in bodies ==> BodyCompiles(p, bodies, n))
  }

  // Where the traversals of a process begin.
  ghost predicate Root(p: Process, implicit: Option<Node>, r: Node) {
    Entry(p, implicit) == Some(r) || exists be :: be in p.boundaries && FirstTarget(p, be) == Some(r)
  }

  /** Ahead of the entry, or of where a boundary event leads. */
  ghost predicate Entered(p: Process, implicit: Option<Node>, n: Node) {
    exists r :: Root(p, implicit, r) && Ahead(p, r, None, n)
  }

  // n is entered in the body of the sub-process k.
  ghost predicate InBody(p: Process, bodies: Bodies, k: Node, n: Node) {
    k !in p.skipped && HasKind(p.g, k, SubProcess) && k in bodies && Entered(Body(p, bodies, k), None, n)
  }

  // A part of a process no handler leaves.
  ghost predicate Covers(p: Process, R: iset<Node>) {
    forall n, m :: n in R && m in Follows(p, n) ==> m in R
  }

  /** A node of R, or of a body of R, that compiles if the compilation succeeds. */
  ghost predicate Accounted(p: Process, bodies: Bodies, R: iset<Node>, n: Node, ok: bool) {
    || (n in R && (ok ==> Compiles(p, bodies, n)))
    || exists k :: k in R && InBody(p, bodies, k, n) && (ok ==> Compiles(Body(p, bodies, k), map[], n))
  }

  // The error is that of a node entered in the body of k.
  ghost predicate FailsInBody(p: Process, bodies: Bodies, k: Node, n: Node, e: Error) {
    InBody(p, bodies, k, n) && Fault(Body(p, bodies, k), map[], n) == Some(e)
  }

  /** The error is that of a node of R, or of a body of R, or a budget is used up. */
  ghost predicate Earned(p: Process, bodies: Bodies, R: iset<Node>, e: Error, sd: Store) {
    || (e.StageBudgetExceeded? && (sd.stages > STAGE_BUDGET || sd.nodes > NODE_BUDGET))
    || (exists n :: n in R && Fault(p, bodies, n) == Some(e))
    || (exists k, n :: k in R && FailsInBody(p, bodies, k, n, e))
  }

  // A node is placed only once it is visited.
  ghost predicate PlacedVisited(sd: Store) {
    sd.nodeSegment.Keys <= sd.visited
  }

  // What is visited, placed, recorded or has a department stays so.
  ghost predicate Later(sd: Store, sd': Store) {
    && sd.visited <= sd'.visited && sd.boundarySteps.Keys <= sd'.boundarySteps.Keys
    && (forall n :: n in sd.nodeSegment ==> n in sd'.nodeSegment && sd'.nodeSegment[n] == sd.nodeSegment[n])
    && (forall l :: Count(sd, l) > 0 ==> Count(sd', l) > 0)
    && (PlacedVisited(sd) ==> PlacedVisited(sd'))
  }

  // Later, with nothing more visited.
  ghost predicate Unvisiting(sd: Store, sd': Store) {
    Later(sd, sd') && sd'.visited == sd.visited && sd'.nodes == sd.nodes
  }

  // The lane a node of a process sits in.
  function OwnLane(p: Process, n: Node): Lane {
    if n in p.lanes then p.lanes[n] else p.defaultLane
  }

  /** A task is placed in a segment of its own lane; the lanes a call reserves have departments. */
  ghost predicate Served(p: Process, n: Node, sd: Store) {
    n !in p.skipped && n in p.g.kind ==>
      && (p.g.kind[n] in {UserTask, SendTask, ReceiveTask} ==>
            n in sd.nodeSegment && sd.nodeSegment[n].lane == OwnLane(p, n))
      && (p.g.kind[n] == CallActivity && n in p.reserved ==> forall l :: l in p.reserved[n] ==> Count(sd, l) > 0)
  }

  // As a node of the body of k, whose tasks outside every lane sit in the sub-process's.
  ghost predicate ServedInBody(p: Process, bodies: Bodies, k: Node, n: Node, sd: Store) {
    k in bodies && Served(bodies[k].(defaultLane := OwnLane(p, k)), n, sd)
  }

  // A node of R is served, or one of a body of R.
  ghost predicate ServedIn(p: Process, bodies: Bodies, R: iset<Node>, n: Node, sd: Store) {
    || (n in R && Served(p, n, sd))
    || exists k :: k in R && InBody(p, bodies, k, n) && ServedInBody(p, bodies, k, n, sd)
  }

  ghost predicate Fares(p: Process, bodies: Bodies, R: iset<Node>, sd: Store, sd': Store, e: Option<Error>) {
    && Later(sd, sd')
    && (forall n :: n in sd'.visited && n !in sd.visited ==> Accounted(p, bodies, R, n, e.None?))
    && (e.None? && PlacedVisited(sd) ==>
          forall n :: n in sd'.visited && n !in sd.visited ==> ServedIn(p, bodies, R, n, sd'))
    && (e.Some? ==> Earned(p, bodies, R, e.value, sd'))
  }

  function ErrorOf(r: Outcome): Option<Error> {
    if r.Done? then None else Some(r.error)
  }

  function SubError(r: SubOutcome): Option<Error> {
    if r.SubDone? then None else Some(r.error)
  }

  function BranchError(r: BranchOutcome): Option<Error> {
    if r.Branched? then None else Some(r.error)
  }

  lemma AccountedFailing(p: Process, bodies: Bodies, R: iset<Node>, n: Node)
    requires Accounted(p, bodies, R, n, true)
    ensures Accounted(p, bodies, R, n, false)
  {
    hide Compiles, Fault, InBody;
  }

  lemma ServedLater(p: Process, n: Node, sd: Store, sd': Store)
    requires Served(p, n, sd) && Later(sd, sd')
    ensures Served(p, n, sd')
  {
    hide Count, OwnLane;
  }

  lemma ServedInLater(p: Process, bodies: Bodies, R: iset<Node>, n: Node, sd: Store, sd': Store)
    requires ServedIn(p, bodies, R, n, sd) && Later(sd, sd')
    ensures ServedIn(p, bodies, R, n, sd')
  {
    hide Served, Later, Count, InBody;
    if n in R && Served(p, n, sd) {
      ServedLater(p, n, sd, sd');
    } else {
      var k :| k in R && InBody(p, bodies, k, n) && ServedInBody(p, bodies, k, n, sd);
      ServedLater(bodies[k].(defaultLane := OwnLane(p, k)), n, sd, sd');
    }
  }

  lemma LaterTrans(a: Store, b: Store, c: Store)
    requires Later(a, b) && Later(b, c)
    ensures Later(a, c)
  {
    hide Count;
  }

  lemma FaresTrans(p: Process, bodies: Bodies, R: iset<Node>, a: Store, b: Store, c: Store, e: Option<Error>)
    requires Fares(p, bodies, R, a, b, None) && Fares(p, bodies, R, b, c, e)
    ensures Fares(p, bodies, R, a, c, e)
  {
    LaterTrans(a, b, c);
    hide Accounted, Earned, ServedIn, Count;
    forall n | n in b.visited && n !in a.visited
      ensures Accounted(p, bodies, R, n, e.None?)
      ensures e.None? && PlacedVisited(a) ==> ServedIn(p, bodies, R, n, c)
    {
      if e.Some? {
        AccountedFailing(p, bodies, R, n);
      } else if PlacedVisited(a) {
        ServedInLater(p, bodies, R, n, b, c);
      }
    }
  }

  // A change of the store that visits nothing.
  lemma FaresAfter(p: Process, bodies: Bodies, R: iset<Node>, a: Store, b: Store, c: Store, e: Option<Error>)
    requires Fares(p, bodies, R, b, c, e) && Unvisiting(a, b)
    ensures Fares(p, bodies, R, a, c, e)
  {
    LaterTrans(a, b, c);
    hide Accounted, Earned, ServedIn, Count;
  }

  // ----- over the traversal -----

  lemma {:induction false} NodeFares(ctx: Context, R: iset<Node>, st: State, n: Node)
    requires Covers(ctx.p, R) && n in R
    ensures var r := TraverseNode(ctx, st, n); Fares(ctx.p, ctx.bodies, R, st.sd, r.st.sd, ErrorOf(r))
    decreases Left(st.sd), 0, 0
  {
    hide Compile, IsEnd, Matched, Covers, Accounted, Compiles, Fault, InBody;
    if ctx.stopAt == Some(n) {
    } else if ctx.stopAtCompiled && n in st.sd.visited {
    } else if n in st.loc.visited {
    } else if st.sd.stages > STAGE_BUDGET || st.sd.nodes + 1 > NODE_BUDGET {
    } else {
      var v := Visit(st, n);
      CompileFares(ctx, R, v, n);
      var r := Compile(ctx, v, n);
      AccountedHere(ctx.p, ctx.bodies, R, n, r.Done?);
      hide Fares, Visit;
      FaresFrom(ctx, R, st, n, r);
    }
  }

  // What its compilation does, the visit counted in.
  lemma FaresFrom(ctx: Context, R: iset<Node>, st: State, n: Node, r: Outcome)
    requires Fares(ctx.p, ctx.bodies, R, Visit(st, n).sd, r.st.sd, ErrorOf(r)) && n in R
    requires Accounted(ctx.p, ctx.bodies, R, n, r.Done?)
    requires r.Done? && n !in st.sd.nodeSegment ==> Served(ctx.p, n, r.st.sd)
    ensures Fares(ctx.p, ctx.bodies, R, st.sd, r.st.sd, ErrorOf(r))
  {
    hide Accounted, Earned, Served, InBody, ServedInBody;
  }

  lemma AccountedHere(p: Process, bodies: Bodies, R: iset<Node>, n: Node, ok: bool)
    requires n in R && (ok ==> Compiles(p, bodies, n))
    ensures Accounted(p, bodies, R, n, ok)
  {
    hide Compiles, Fault, InBody;
  }

  lemma {:induction false} AllFares(ctx: Context, R: iset<Node>, st: State, ns: seq<Node>)
    requires Covers(ctx.p, R) && forall m :: m in ns ==> m in R
    ensures var r := TraverseAll(ctx, st, ns); Fares(ctx.p, ctx.bodies, R, st.sd, r.st.sd, ErrorOf(r))
    decreases Left(st.sd), 1, |ns|
  {
    hide TraverseNode, Matched, Covers, Accounted, Earned;
    if ns != [] {
      var r := TraverseNode(ctx, st, ns[0]);
      NodeFares(ctx, R, st, ns[0]);
      if r.Done? {
        AllFares(ctx, R, r.st, ns[1..]);
        hide Fares;
        var s := TraverseAll(ctx, r.st, ns[1..]);
        FaresTrans(ctx.p, ctx.bodies, R, st.sd, r.st.sd, s.st.sd, ErrorOf(s));
      }
    }
  }

  lemma {:induction false} FirstFares(ctx: Context, R: iset<Node>, st: State, n: Node)
    requires Covers(ctx.p, R) && forall m :: m in First(Nexts(ctx.p, n)) ==> m in R
    ensures var r := TraverseFirst(ctx, st, n); Fares(ctx.p, ctx.bodies, R, st.sd, r.st.sd, ErrorOf(r))
    decreases Left(st.sd), 1, 0
  {
    hide TraverseNode, Matched, Covers, Accounted, Earned;
    if Nexts(ctx.p, n) != [] {
      NodeFares(ctx, R, st, Nexts(ctx.p, n)[0]);
    }
  }

  lemma {:induction false} TargetFares(ctx: Context, R: iset<Node>, st: State, n: Node)
    requires Covers(ctx.p, R) && forall m :: m in First(Outs(ctx.p.g.outgoing, n)) ==> m in R
    ensures var r := TraverseTarget(ctx, st, n); Fares(ctx.p, ctx.bodies, R, st.sd, r.st.sd, ErrorOf(r))
    decreases Left(st.sd), 1, 0
  {
    hide TraverseNode, Matched, Covers, Accounted, Earned;
    if FirstTarget(ctx.p, n).Some? {
      NodeFares(ctx, R, st, FirstTarget(ctx.p, n).value);
    }
  }

  // On along the first forward flow, from a store with as much visited.
  lemma {:induction false} ThenFares(ctx: Context, R: iset<Node>, sd: Store, st: State, n: Node)
    requires Covers(ctx.p, R) && forall m :: m in First(Nexts(ctx.p, n)) ==> m in R
    requires Unvisiting(sd, st.sd)
    ensures var r := TraverseFirst(ctx, st, n); Fares(ctx.p, ctx.bodies, R, sd, r.st.sd, ErrorOf(r))
    decreases Left(st.sd), 2, 0
  {
    hide TraverseFirst, Matched, Covers, Fares;
    FirstFares(ctx, R, st, n);
    var r := TraverseFirst(ctx, st, n);
    FaresAfter(ctx.p, ctx.bodies, R, sd, st.sd, r.st.sd, ErrorOf(r));
  }

  // No sub-process, no call and no gateway whose branches must meet: nothing to fail for.
  ghost predicate Plain(p: Process, n: Node) {
    n in p.skipped || n !in p.g.kind ||
    (p.g.kind[n] != SubProcess && p.g.kind[n] != CallActivity && !Balanced(p, n))
  }

  lemma PlainHasNoFault(p: Process, bodies: Bodies, n: Node)
    requires Plain(p, n)
    ensures Compiles(p, bodies, n)
  {
  }

  // What n is compiled as.
  ghost function Acts(p: Process, n: Node): Option<Kind> {
    if n in p.skipped || n !in p.g.kind then None else Some(p.g.kind[n])
  }

  // What the handler of n follows, by its kind, is in R.
  lemma FollowsIn(p: Process, R: iset<Node>, n: Node)
    requires Covers(p, R) && n in R
    ensures Acts(p, n) in {None, Some(BoundaryEvent)} ==> forall m :: m in Nexts(p, n) ==> m in R
    ensures Acts(p, n) in {Some(UserTask), Some(SendTask), Some(ReceiveTask), Some(SubProcess), Some(CallActivity)} ==>
              forall m :: m in First(Nexts(p, n)) ==> m in R
    ensures Acts(p, n) in {Some(TimerBoundaryEvent), Some(MessageBoundaryEvent)} ==>
              forall m :: m in First(Outs(p.g.outgoing, n)) ==> m in R
    ensures Acts(p, n) in {Some(ParallelGateway), Some(InclusiveGateway), Some(ExclusiveGateway)} ==>
              SplitsIn(p, R, n)
  {
    hide JoinAt, Nexts;
    assert forall m :: m in Follows(p, n) ==> m in R;
  }

  lemma {:induction false} CompileFares(ctx: Context, R: iset<Node>, st: State, n: Node)
    requires Covers(ctx.p, R) && n in R && n in st.sd.visited
    ensures var r := Compile(ctx, st, n);
            && Fares(ctx.p, ctx.bodies, R, st.sd, r.st.sd, ErrorOf(r))
            && (r.Done? ==> Compiles(ctx.p, ctx.bodies, n))
            && (r.Done? && n !in st.sd.nodeSegment ==> Served(ctx.p, n, r.st.sd))
    decreases Left(st.sd), 5, 0
  {
    hide Covers, AddTask, TraverseFirst, TraverseAll, TraverseTarget, HandleGateway, CompileSubProcess, CompileCall,
         Flush, Matched, Fares, JoinAt, Nexts, First, SplitsIn, OwnLane, Count;
    FollowsIn(ctx.p, R, n);
    if Plain(ctx.p, n) {
      PlainFares(ctx, R, st, n);
    } else {
      match ctx.p.g.kind[n]
      case ParallelGateway => GatewayFares(ctx, R, st, n, false);
      case InclusiveGateway => GatewayFares(ctx, R, st, n, false);
      case SubProcess => SubProcessFares(ctx, R, st, n);
      case CallActivity => CallFares(ctx, R, st, n);
    }
  }

  lemma {:induction false} PlainFares(ctx: Context, R: iset<Node>, st: State, n: Node)
    requires Covers(ctx.p, R) && n in R && Plain(ctx.p, n) && n in st.sd.visited
    ensures var r := Compile(ctx, st, n);
            && Fares(ctx.p, ctx.bodies, R, st.sd, r.st.sd, ErrorOf(r)) && Compiles(ctx.p, ctx.bodies, n)
            && (r.Done? && n !in st.sd.nodeSegment ==> Served(ctx.p, n, r.st.sd))
    decreases Left(st.sd), 4, 0
  {
    hide Covers, AddTask, TraverseFirst, TraverseAll, TraverseTarget, HandleGateway, CompileSubProcess, CompileCall,
         Flush, Matched, Fares, JoinAt, Nexts, First, SplitsIn, Compiles, OwnLane, Count;
    PlainHasNoFault(ctx.p, ctx.bodies, n);
    FollowsIn(ctx.p, R, n);
    if n in ctx.p.skipped || n !in ctx.p.g.kind {
      AllFares(ctx, R, st, Nexts(ctx.p, n));
    } else {
      FaresSelf(ctx.p, ctx.bodies, R, st.sd);
      match ctx.p.g.kind[n]
      case StartEvent =>
      case EndEvent => FlushVisits(st);
      case UserTask => TaskFares(ctx, R, st, n);
      case SendTask => TaskFares(ctx, R, st, n);
      case ReceiveTask => TaskFares(ctx, R, st, n);
      case ExclusiveGateway => GatewayFares(ctx, R, st, n, true);
      case TimerBoundaryEvent => TargetFares(ctx, R, st, n);
      case MessageBoundaryEvent => TargetFares(ctx, R, st, n);
      case ErrorBoundaryEvent =>
      case BoundaryEvent => AllFares(ctx, R, st, Nexts(ctx.p, n));
    }
  }

  lemma FaresSelf(p: Process, bodies: Bodies, R: iset<Node>, sd: Store)
    ensures Fares(p, bodies, R, sd, sd, None)
  {
  }

  // A task is placed in its lane, and stays there while its traversal goes on.
  lemma {:induction false} TaskFares(ctx: Context, R: iset<Node>, st: State, n: Node)
    requires Covers(ctx.p, R) && n in st.sd.visited && forall m :: m in First(Nexts(ctx.p, n)) ==> m in R
    requires n in ctx.p.g.kind && ctx.p.g.kind[n] in {UserTask, SendTask, ReceiveTask}
    ensures var r := TraverseFirst(ctx, AddTask(ctx.p, st, n), n);
            && Fares(ctx.p, ctx.bodies, R, st.sd, r.st.sd, ErrorOf(r))
            && (r.Done? && n !in st.sd.nodeSegment ==> Served(ctx.p, n, r.st.sd))
    decreases Left(st.sd), 3, 0
  {
    hide Covers, AddTask, TraverseFirst, Matched, Accounted, Earned, ServedIn, Later, PlacedVisited, Served, Nexts;
    var st1 := AddTask(ctx.p, st, n);
    TaskUnvisiting(ctx.p, st, n);
    FirstFares(ctx, R, st1, n);
    var r := TraverseFirst(ctx, st1, n);
    FaresAfter(ctx.p, ctx.bodies, R, st.sd, st1.sd, r.st.sd, ErrorOf(r));
    if n !in st.sd.nodeSegment {
      TaskServed(ctx.p, st, n);
      ServedLater(ctx.p, n, st1.sd, r.st.sd);
    }
  }

  lemma TaskServed(p: Process, st: State, n: Node)
    requires n !in st.sd.nodeSegment && n in p.g.kind && p.g.kind[n] in {UserTask, SendTask, ReceiveTask}
    ensures Served(p, n, AddTask(p, st, n).sd)
  {
    hide StartsSegment, StagesOf, EnsureDept, Count;
    LatestUnvisiting(st.sd, LaneOf(p, n));
    LatestPlaces(st.sd, LaneOf(p, n));
    hide LatestSegment;
  }

  lemma LatestPlaces(sd: Store, lane: Lane)
    ensures LatestSegment(sd, lane).1.lane == lane && LatestSegment(sd, lane).0.nodeSegment == sd.nodeSegment
  {
    hide StagesOf;
  }

  lemma UnvisitingTrans(a: Store, b: Store, c: Store)
    requires Unvisiting(a, b) && Unvisiting(b, c)
    ensures Unvisiting(a, c)
  {
    LaterTrans(a, b, c);
    hide Later;
  }

  lemma PlacingUnvisiting(sd: Store, n: Node, s: Segment)
    requires n in sd.visited
    ensures Unvisiting(sd, MarkNodeSegment(sd, n, Some(s)))
  {
  }

  lemma AppendUnvisiting(sd: Store, s: Segment, stage: Sym)
    ensures Unvisiting(sd, AppendStage(sd, s, stage))
  {
  }

  lemma TaskUnvisiting(p: Process, st: State, n: Node)
    requires n in st.sd.visited
    ensures Unvisiting(st.sd, AddTask(p, st, n).sd)
  {
    hide LaneOf, StartsSegment, StagesOf, EnsureDept, Later, LatestSegment, MarkNodeSegment, AppendStage;
    var opens := st.loc.open.None? || st.loc.open.value.lane != LaneOf(p, n) || StartsSegment(p, n);
    var (sd, s) := if opens then LatestSegment(st.sd, LaneOf(p, n)) else (st.sd, st.loc.open.value);
    var marked := MarkNodeSegment(sd, n, Some(s));
    LatestUnvisiting(st.sd, LaneOf(p, n));
    SameUnvisiting(st.sd);
    PlacingUnvisiting(sd, n, s);
    AppendUnvisiting(marked, s, Task(n));
    UnvisitingTrans(st.sd, sd, marked);
    UnvisitingTrans(st.sd, marked, AppendStage(marked, s, Task(n)));
  }

  lemma SameUnvisiting(sd: Store)
    ensures Unvisiting(sd, sd)
  {
  }

  lemma LatestUnvisiting(sd: Store, lane: Lane)
    ensures Unvisiting(sd, LatestSegment(sd, lane).0)
  {
    hide StagesOf;
  }

  lemma {:induction false} ReserveUnvisiting(sd: Store, lanes: seq<Lane>)
    ensures Unvisiting(sd, ReserveLanes(sd, lanes))
    decreases lanes
  {
    if lanes != [] {
      var l := lanes[0];
      ReserveUnvisiting(if Count(sd, l) == 0 then EnsureDept(sd.(segments := sd.segments[l := 1]), Segment(l, 1))
          else sd, lanes[1..]);
    }
  }

  lemma {:induction false} ReserveCounts(sd: Store, lanes: seq<Lane>)
    ensures forall l :: l in lanes ==> Count(ReserveLanes(sd, lanes), l) > 0
    decreases lanes
  {
    if lanes != [] {
      var l := lanes[0];
      var sd1 := if Count(sd, l) == 0 then EnsureDept(sd.(segments := sd.segments[l := 1]), Segment(l, 1)) else sd;
      ReserveCounts(sd1, lanes[1..]);
      ReserveUnvisiting(sd1, lanes[1..]);
      assert Count(sd1, l) > 0;
      assert forall k :: k in lanes ==> k == l || k in lanes[1..];
    }
  }

  lemma FlushVisits(st: State)
    ensures Flush(st).sd == st.sd
  {
  }

  // n is a gateway whose join, if it splits, is in R as its targets are.
  ghost predicate SplitsIn(p: Process, R: iset<Node>, n: Node) {
    forall m :: m in Nexts(p, n) || m in JoinAfter(p, n) ==> m in R
  }

  lemma {:induction false} GatewayFares(ctx: Context, R: iset<Node>, st: State, n: Node, exclusive: bool)
    requires Covers(ctx.p, R) && n in R && SplitsIn(ctx.p, R, n)
    requires n !in ctx.p.skipped && (exclusive <==> !Balanced(ctx.p, n))
    ensures var r := HandleGateway(ctx, st, n, exclusive);
            && Fares(ctx.p, ctx.bodies, R, st.sd, r.st.sd, ErrorOf(r))
            && (r.Done? && Balanced(ctx.p, n) && |Nexts(ctx.p, n)| >= 2 ==>
                JoinAt(ctx.p.g.outgoing, ctx.p.back, n).Some?)
    decreases Left(st.sd), 3, 1
  {
    hide Covers, TraverseFirst, SingleForward, SplitNoJoin, SplitWithJoin, Flush, Matched, Reverts, JoinAt, Fares;
    FlushVisits(st);
    var fwd := Nexts(ctx.p, n);
    var reverts := RevertsOf(ctx.p, n);
    if |fwd| <= 1 && reverts == [] {
      FirstFares(ctx, R, st, n);
    } else if |fwd| <= 1 {
      SingleFares(ctx, R, Flush(st), n, fwd, reverts);
    } else if JoinAt(ctx.p.g.outgoing, ctx.p.back, n).None? {
      NoJoinFares(ctx, R, Flush(st), n, fwd, reverts, exclusive);
    } else {
      var join := JoinAt(ctx.p.g.outgoing, ctx.p.back, n).value;
      assert join in JoinAfter(ctx.p, n);
      WithJoinFares(ctx, R, Flush(st), n, fwd, reverts, join, exclusive);
    }
  }

  lemma {:induction false} SingleFares(ctx: Context, R: iset<Node>, st: State, n: Node, fwd: seq<Node>,
                                       reverts: seq<Branch>)
    requires Covers(ctx.p, R) && forall m :: m in fwd ==> m in R
    ensures var r := SingleForward(ctx, st, n, fwd, reverts); Fares(ctx.p, ctx.bodies, R, st.sd, r.st.sd, ErrorOf(r))
    decreases Left(st.sd), 3, 0
  {
    hide TraverseNode, Matched, IsEnd, Covers, Accounted, Earned;
    if fwd != [] {
      var onward := Onward(Edge(n, fwd[0]), [], IsEnd(ctx.p.g, fwd[0]));
      NodeFares(ctx, R, AddStep(st, Gateway([], [onward] + reverts)), fwd[0]);
    }
  }

  lemma {:induction false} NoJoinFares(ctx: Context, R: iset<Node>, st: State, n: Node, fwd: seq<Node>,
                                       reverts: seq<Branch>, exclusive: bool)
    requires Covers(ctx.p, R) && n in R && fwd == Nexts(ctx.p, n) && |fwd| >= 2 && SplitsIn(ctx.p, R, n)
    requires n !in ctx.p.skipped && (exclusive <==> !Balanced(ctx.p, n))
    requires JoinAt(ctx.p.g.outgoing, ctx.p.back, n).None?
    ensures var r := SplitNoJoin(ctx, st, n, fwd, reverts, exclusive);
            Fares(ctx.p, ctx.bodies, R, st.sd, r.st.sd, ErrorOf(r)) && (r.Done? ==> exclusive)
    decreases Left(st.sd), 3, 0
  {
    hide Branches, Matched, Covers, Accounted, JoinAt, Nexts;
    if exclusive {
      BranchesFare(ctx, R, st, n, fwd, None, true);
    } else {
      assert Fault(ctx.p, ctx.bodies, n) == Some(NoMatchingJoin(n));
    }
  }

  lemma {:induction false} WithJoinFares(ctx: Context, R: iset<Node>, st: State, n: Node, fwd: seq<Node>,
                                         reverts: seq<Branch>, join: Node, exclusive: bool)
    requires Covers(ctx.p, R) && join in R && forall m :: m in fwd ==> m in R
    ensures var r := SplitWithJoin(ctx, st, n, fwd, reverts, join, exclusive);
            Fares(ctx.p, ctx.bodies, R, st.sd, r.st.sd, ErrorOf(r))
    decreases Left(st.sd), 3, 0
  {
    hide Branches, Matched, Covers, Fares, TraverseNode;
    var r := Branches(ctx, st, n, fwd, Some(join), false);
    BranchesFare(ctx, R, st, n, fwd, Some(join), false);
    if r.Branched? {
      var step := if exclusive then Gateway([], r.branches + reverts) else Gateway(r.branches, reverts);
      NodeFares(ctx, R, AddStep(r.st, step), join);
      var t := TraverseNode(ctx, AddStep(r.st, step), join);
      FaresTrans(ctx.p, ctx.bodies, R, st.sd, r.st.sd, t.st.sd, ErrorOf(t));
    }
  }

  lemma {:induction false} BranchesFare(ctx: Context, R: iset<Node>, st: State, n: Node, starts: seq<Node>,
                                        stop: Option<Node>, terminates: bool)
    requires Covers(ctx.p, R) && forall m :: m in starts ==> m in R
    ensures var r := Branches(ctx, st, n, starts, stop, terminates);
            Fares(ctx.p, ctx.bodies, R, st.sd, r.st.sd, BranchError(r))
    decreases Left(st.sd), 2, |starts|
  {
    hide BranchSteps, Matched, Covers, Accounted, Earned;
    if starts != [] {
      var one := BranchSteps(ctx, st, starts[0], stop);
      BranchFares(ctx, R, st, starts[0], stop);
      if one.SubDone? {
        BranchesFare(ctx, R, one.st, n, starts[1..], stop, terminates);
        hide Fares;
        var rest := Branches(ctx, one.st, n, starts[1..], stop, terminates);
        FaresTrans(ctx.p, ctx.bodies, R, st.sd, one.st.sd, rest.st.sd, BranchError(rest));
      }
    }
  }

  lemma {:induction false} BranchFares(ctx: Context, R: iset<Node>, st: State, start: Node, stop: Option<Node>)
    requires Covers(ctx.p, R) && start in R
    ensures var r := BranchSteps(ctx, st, start, stop); Fares(ctx.p, ctx.bodies, R, st.sd, r.st.sd, SubError(r))
    decreases Left(st.sd), 1, 0
  {
    hide TraverseNode, Matched, Covers, Fares;
    NodeFares(ctx.(stopAt := stop), R, State(st.sd, Fresh(st.loc.rejoined)), start);
  }

  // ----- bodies -----

  // What a process is entered at, and all that lies ahead of that.
  ghost function Region(p: Process, implicit: Option<Node>): iset<Node> {
    iset n | Entered(p, implicit, n)
  }

  lemma AheadCovers(p: Process, r: Node)
    ensures Covers(p, iset n | Ahead(p, r, None, n))
  {
    hide Follows, Ahead;
    forall n, m | Ahead(p, r, None, n) && m in Follows(p, n)
      ensures Ahead(p, r, None, m)
    {
      AheadStep(p, r, n, m);
    }
  }

  lemma RegionCovers(p: Process, implicit: Option<Node>)
    ensures Covers(p, Region(p, implicit))
  {
    hide Follows, Root, Ahead;
    forall n, m | n in Region(p, implicit) && m in Follows(p, n)
      ensures m in Region(p, implicit)
    {
      var r :| Root(p, implicit, r) && Ahead(p, r, None, n);
      AheadStep(p, r, n, m);
    }
  }

  lemma RootInRegion(p: Process, implicit: Option<Node>, r: Node)
    requires Root(p, implicit, r)
    ensures r in Region(p, implicit)
  {
    hide Root, Ahead;
    AheadSelf(p, r, None);
  }

  lemma BodyLane(p: Process, bodies: Bodies, k: Node)
    requires k in bodies
    ensures Body(p, bodies, k) == bodies[k].(defaultLane := OwnLane(p, k))
  {
  }

  // The fortunes of a body are those of the process it stands in.
  lemma BodyAccounts(p: Process, bodies: Bodies, R: iset<Node>, k: Node, sd: Store, sd': Store, e: Option<Error>)
    requires k in R && k !in p.skipped && HasKind(p.g, k, SubProcess) && k in bodies
    requires var q := Body(p, bodies, k); Fares(q, map[], Region(q, None), sd, sd', e)
    ensures Fares(p, bodies, R, sd, sd', e)
  {
    hide Compiles, Fault, Body, Entered, Served, Later, PlacedVisited;
    var q := Body(p, bodies, k);
    forall n | n in sd'.visited && n !in sd.visited
      ensures Accounted(p, bodies, R, n, e.None?)
      ensures e.None? && PlacedVisited(sd) ==> ServedIn(p, bodies, R, n, sd')
    {
      assert Accounted(q, map[], Region(q, None), n, e.None?);
      assert InBody(p, bodies, k, n);
      if e.None? && PlacedVisited(sd) {
        assert ServedIn(q, map[], Region(q, None), n, sd');
        assert ServedInBody(p, bodies, k, n, sd') by { BodyLane(p, bodies, k); }
      }
    }
    if e.Some? && !(e.value.StageBudgetExceeded? && (sd'.stages > STAGE_BUDGET || sd'.nodes > NODE_BUDGET)) {
      var n :| n in Region(q, None) && Fault(q, map[], n) == e;
      assert FailsInBody(p, bodies, k, n, e.value);
    }
  }

  lemma {:induction false} RunBodyFares(ctx: Context, R: iset<Node>, st: State, n: Node)
    requires n in ctx.bodies && n in R && n !in ctx.p.skipped && HasKind(ctx.p.g, n, SubProcess)
    ensures var r := RunBody(ctx, st, n); Fares(ctx.p, ctx.bodies, R, st.sd, r.st.sd, SubError(r))
    decreases Left(st.sd), 3, 0
  {
    hide Matched, RunProcess, Fares, Body;
    var q := Body(ctx.p, ctx.bodies, n);
    var bctx := Context(q, map[], None, false);
    RunFares(bctx, None, State(st.sd, Fresh(false)));
    var r := RunProcess(bctx, State(st.sd, Fresh(false)));
    BodyAccounts(ctx.p, ctx.bodies, R, n, st.sd, r.st.sd, ErrorOf(r));
  }

  lemma {:induction false} RunFares(ctx: Context, implicit: Option<Node>, st: State)
    ensures var r := RunProcess(ctx, st);
            Fares(ctx.p, ctx.bodies, Region(ctx.p, implicit), st.sd, r.st.sd, ErrorOf(r))
    decreases Left(st.sd), 2, 0
  {
    hide Matched, TraverseFirst, BoundaryPaths, Covers, Region, Accounted, Earned;
    var R := Region(ctx.p, implicit);
    RegionCovers(ctx.p, implicit);
    if ctx.p.start.Some? {
      if Nexts(ctx.p, ctx.p.start.value) != [] {
        RootInRegion(ctx.p, implicit, Nexts(ctx.p, ctx.p.start.value)[0]);
      }
      FirstFares(ctx, R, st, ctx.p.start.value);
    }
    var r := if ctx.p.start.None? then Done(st) else TraverseFirst(ctx, st, ctx.p.start.value);
    if r.Done? {
      assert Fares(ctx.p, ctx.bodies, R, st.sd, r.st.sd, None);
      hide Fares;
      PathsFare(ctx, implicit, r.st, ctx.p.boundaries);
      var b := BoundaryPaths(ctx, r.st, ctx.p.boundaries);
      FaresTrans(ctx.p, ctx.bodies, R, st.sd, r.st.sd, b.st.sd, ErrorOf(b));
    }
  }

  lemma {:induction false} PathsFare(ctx: Context, implicit: Option<Node>, st: State, bs: seq<Node>)
    requires forall be :: be in bs ==> be in ctx.p.boundaries
    ensures var r := BoundaryPaths(ctx, st, bs);
            Fares(ctx.p, ctx.bodies, Region(ctx.p, implicit), st.sd, r.st.sd, ErrorOf(r))
    decreases Left(st.sd), 1, |bs|
  {
    hide Matched, BoundaryPath, Region, Accounted, Earned;
    if bs != [] {
      var r := BoundaryPath(ctx, st, bs[0]);
      PathFares(ctx, implicit, st, bs[0]);
      if r.Done? {
        PathsFare(ctx, implicit, r.st, bs[1..]);
        hide Fares;
        var s := BoundaryPaths(ctx, r.st, bs[1..]);
        FaresTrans(ctx.p, ctx.bodies, Region(ctx.p, implicit), st.sd, r.st.sd, s.st.sd, ErrorOf(s));
      }
    }
  }

  lemma RecordUnvisiting(st: State, be: Node)
    ensures Unvisiting(st.sd, RecordPath(st, be))
  {
  }

  lemma FaresThen(p: Process, bodies: Bodies, R: iset<Node>, a: Store, b: Store, c: Store)
    requires Fares(p, bodies, R, a, b, None) && Unvisiting(b, c)
    ensures Fares(p, bodies, R, a, c, None)
  {
    LaterTrans(a, b, c);
    hide Accounted, ServedIn, Count;
    forall n | n in c.visited && n !in a.visited && PlacedVisited(a)
      ensures ServedIn(p, bodies, R, n, c)
    {
      ServedInLater(p, bodies, R, n, b, c);
    }
  }

  lemma {:induction false} PathFares(ctx: Context, implicit: Option<Node>, st: State, be: Node)
    requires be in ctx.p.boundaries
    ensures var r := BoundaryPath(ctx, st, be);
            Fares(ctx.p, ctx.bodies, Region(ctx.p, implicit), st.sd, r.st.sd, ErrorOf(r))
    decreases Left(st.sd), 1, 0
  {
    hide Matched, TraverseNode, Region, TaskAhead, Covers, Fares, Flush, RecordPath;
    FaresSelf(ctx.p, ctx.bodies, Region(ctx.p, implicit), st.sd);
    RegionCovers(ctx.p, implicit);
    var task := BoundaryTask(ctx.p, be);
    if task.Some? && task.value !in st.sd.nodeSegment {
      var target := FirstTarget(ctx.p, be).value;
      var path := Context(ctx.p, ctx.bodies, None, true);
      RootInRegion(ctx.p, implicit, target);
      NodeFares(path, Region(ctx.p, implicit), State(st.sd, Fresh(false)), target);
      var t := TraverseNode(path, State(st.sd, Fresh(false)), target);
      if t.Done? {
        RecordUnvisiting(t.st, be);
        FaresThen(ctx.p, ctx.bodies, Region(ctx.p, implicit), st.sd, t.st.sd, RecordPath(t.st, be));
      }
    }
  }

  lemma RunBodyCompiles(ctx: Context, st: State, n: Node)
    requires n in ctx.bodies && RunBody(ctx, st, n).SubDone?
    ensures BodyCompiles(ctx.p, ctx.bodies, n)
  {
    hide RunProcess, Matched, Body;
  }

  lemma MarkUnvisiting(st: State, n: Node, steps: seq<Step>)
    requires n in st.sd.visited
    ensures var s1 := Flush(State(MarkNodeSegment(st.sd, n, FirstDepartment(steps)), st.loc));
            Unvisiting(st.sd, AddStep(s1, SubWorkflow(n, steps)).sd)
  {
    hide FirstDepartment;
  }

  lemma {:induction false} SubProcessFares(ctx: Context, R: iset<Node>, st: State, n: Node)
    requires Covers(ctx.p, R) && n in R && n !in ctx.p.skipped && HasKind(ctx.p.g, n, SubProcess)
    requires n in st.sd.visited
    requires forall m :: m in First(Nexts(ctx.p, n)) ==> m in R
    ensures var r := CompileSubProcess(ctx, st, n);
            Fares(ctx.p, ctx.bodies, R, st.sd, r.st.sd, ErrorOf(r)) && (r.Done? ==> Compiles(ctx.p, ctx.bodies, n))
    decreases Left(st.sd), 4, 0
  {
    hide Matched, RunBody, TraverseFirst, Covers, FirstDepartment, Accounted, Nexts, InBody, JoinAt;
    if n !in ctx.bodies {
      assert Fault(ctx.p, ctx.bodies, n) == Some(BodyNotFound(n));
    } else {
      var b := RunBody(ctx, st, n);
      RunBodyFares(ctx, R, st, n);
      if b.SubDone? {
        RunBodyCompiles(ctx, st, n);
        hide Fares;
        var s1 := Flush(State(MarkNodeSegment(b.st.sd, n, FirstDepartment(b.steps)), b.st.loc));
        var s2 := AddStep(s1, SubWorkflow(n, b.steps));
        MarkUnvisiting(b.st, n, b.steps);
        hide MarkNodeSegment, Flush, AddStep, Unvisiting;
        ThenFares(ctx, R, b.st.sd, s2, n);
        var t := TraverseFirst(ctx, s2, n);
        FaresTrans(ctx.p, ctx.bodies, R, st.sd, b.st.sd, t.st.sd, ErrorOf(t));
      }
    }
  }

  lemma {:induction false} CallFares(ctx: Context, R: iset<Node>, st: State, n: Node)
    requires Covers(ctx.p, R) && n in R && n !in ctx.p.skipped && HasKind(ctx.p.g, n, CallActivity)
    requires forall m :: m in First(Nexts(ctx.p, n)) ==> m in R
    ensures var r := CompileCall(ctx, st, n);
            && Fares(ctx.p, ctx.bodies, R, st.sd, r.st.sd, ErrorOf(r))
            && (r.Done? ==> Compiles(ctx.p, ctx.bodies, n) && Served(ctx.p, n, r.st.sd))
    decreases Left(st.sd), 4, 0
  {
    hide Matched, TraverseFirst, Covers, Accounted, ServedIn, Later, Served, Nexts, InBody, JoinAt, ReserveLanes, Count;
    if n in ctx.p.failing {
      assert Fault(ctx.p, ctx.bodies, n) == Some(CallNotCompiled(n));
      FaresSelf(ctx.p, ctx.bodies, R, st.sd);
    } else {
      var lanes := if n in ctx.p.reserved then ctx.p.reserved[n] else [];
      ReserveUnvisiting(st.sd, lanes);
      ReserveServes(ctx.p, st.sd, n);
      var st1 := AddStep(Flush(State(ReserveLanes(st.sd, lanes), st.loc)), CallPlan(n));
      FirstFares(ctx, R, st1, n);
      var r := TraverseFirst(ctx, st1, n);
      FaresAfter(ctx.p, ctx.bodies, R, st.sd, st1.sd, r.st.sd, ErrorOf(r));
      ServedLater(ctx.p, n, st1.sd, r.st.sd);
    }
  }

  lemma ReserveServes(p: Process, sd: Store, n: Node)
    requires HasKind(p.g, n, CallActivity)
    ensures Served(p, n, ReserveLanes(sd, if n in p.reserved then p.reserved[n] else []))
  {
    hide ReserveLanes, Count;
    ReserveCounts(sd, if n in p.reserved then p.reserved[n] else []);
  }

  // ----- whole compilations -----

  /**
   * A plan fails for want of a start event, or by an error it earned; what the
   * compilation of a plan came to compiles.
   */
  lemma PlanFares(p: Process, bodies: Bodies, implicit: Option<Node>)
    ensures var r := CompilePlan(p, bodies, implicit);
            if p.start.None? && implicit.None? then r == Failed(NoStart, r.st)
            else Fares(p, bodies, Region(p, implicit), EMPTY_STORE, r.st.sd, ErrorOf(r))
  {
    hide Matched, TraverseNode, RunProcess, BoundaryPaths, Region, Accounted, Earned, Covers;
    var ctx := Context(p, bodies, None, false);
    var st := State(EMPTY_STORE, Fresh(false));
    var R := Region(p, implicit);
    if p.start.Some? {
      RunFares(ctx, implicit, st);
    } else if implicit.Some? {
      RegionCovers(p, implicit);
      RootInRegion(p, implicit, implicit.value);
      NodeFares(ctx, R, st, implicit.value);
      var r := TraverseNode(ctx, st, implicit.value);
      if r.Done? {
        hide Fares;
        PathsFare(ctx, implicit, r.st, p.boundaries);
        var b := BoundaryPaths(ctx, r.st, p.boundaries);
        FaresTrans(p, bodies, R, EMPTY_STORE, r.st.sd, b.st.sd, ErrorOf(b));
      }
    }
  }

  /**
   * In a plan that compiles every task visited is placed in a segment of its own
   * lane, in a body the sub-process's if the task is in none, and the lanes a call
   * reserves have departments.
   */
  lemma PlanServes(p: Process, bodies: Bodies, implicit: Option<Node>)
    ensures var r := CompilePlan(p, bodies, implicit);
            r.Done? ==> forall n :: n in r.st.sd.visited ==> ServedIn(p, bodies, Region(p, implicit), n, r.st.sd)
  {
    hide CompilePlan, Region, ServedIn, Accounted;
    PlanFares(p, bodies, implicit);
  }
}

/**
 * What the mutating traversal of traverse.go, state.go and the element
 * handlers computes, as functions from state to state. The classes in
 * CompileStates run these step by step; the laws about plans are proved here.
 */
module Traversal {
  import opened Wrappers
  import opened Graphs
  import opened Bpmn
  import opened Languages
  import opened Plans
  import opened Joins

  const STAGE_BUDGET: nat := 1000
  const NODE_BUDGET: nat := 10 * STAGE_BUDGET

  /**
   * One process or sub-process body as the traversal sees it. reserved lists the
   * lanes binding a call's departments reserves; failing the calls whose called
   * process does not compile.
   */
  datatype Process = Process(
    g: Graph,
    back: set<Edge>,
    start: Option<Node>,
    skipped: set<Node>,
    lanes: map<Node, Lane>,
    defaultLane: Lane,
    boundaries: seq<Node>,
    reserved: map<Node, seq<Lane>>,
    failing: set<Node>)

  type Bodies = map<Node, Process>

  // stopAt: the join a branch stops at. stopAtCompiled: a boundary continuation.
  datatype Context = Context(p: Process, bodies: Bodies, stopAt: Option<Node>, stopAtCompiled: bool)

  // One state's own fields; its open segment also fixes its open lane.
  datatype Local = Local(steps: seq<Step>, buf: seq<Segment>, visited: set<Node>, open: Option<Segment>, rejoined: bool)

  datatype State = State(sd: Store, loc: Local)

  datatype Error =
    | NoStart | StageBudgetExceeded
    | NoMatchingJoin(split: Node) | BodyNotFound(node: Node) | CallNotCompiled(node: Node)

  datatype Outcome = Done(st: State) | Failed(error: Error, st: State)

  // A sub-traversal hands its parent back, with the store it left and the steps it made.
  datatype SubOutcome = SubDone(st: State, steps: seq<Step>) | SubFailed(error: Error, st: State)

  datatype BranchOutcome = Branched(st: State, branches: seq<Branch>) | BranchFailed(error: Error, st: State)

  // ----- looking at the graph -----

  function Nexts(p: Process, n: Node): seq<Node> {
    ForwardOuts(p.g.outgoing, p.back, n)
  }

  function BackNexts(outs: seq<Node>, n: Node, back: set<Edge>): seq<Node> {
    if outs == [] then []
    else (if Edge(n, outs[0]) in back then [outs[0]] else []) + BackNexts(outs[1..], n, back)
  }

  function Reverts(n: Node, targets: seq<Node>): (bs: seq<Branch>)
    ensures forall b :: b in bs ==> b.Revert?
    ensures |bs| == |targets|
  {
    if targets == [] then [] else [Revert(Edge(n, targets[0]))] + Reverts(n, targets[1..])
  }

  function FirstTarget(p: Process, n: Node): Option<Node> {
    if Outs(p.g.outgoing, n) == [] then None else Some(Outs(p.g.outgoing, n)[0])
  }

  function LaneOf(p: Process, n: Node): Lane {
    if n in p.lanes then p.lanes[n] else p.defaultLane
  }

  // The first task or sub-process along first forward flows, unseen nodes only.
  function TaskAhead(p: Process, n: Node, unseen: set<Node>): Option<Node>
    decreases |unseen|
  {
    if n !in unseen then None
    else if n !in p.skipped && (HasKind(p.g, n, UserTask) || HasKind(p.g, n, SubProcess)) then Some(n)
    else if Nexts(p, n) == [] then None
    else TaskAhead(p, Nexts(p, n)[0], unseen - {n})
  }

  function BoundaryTask(p: Process, be: Node): Option<Node> {
    match FirstTarget(p, be)
    case None => None
    case Some(target) => TaskAhead(p, target, {target} + Targets(p.g.outgoing))
  }

  // A node a boundary event leads to starts a segment of its own.
  predicate StartsSegment(p: Process, n: Node) {
    exists be | be in p.boundaries :: BoundaryTask(p, be) == Some(n)
  }

  function FirstDepartment(steps: seq<Step>): Option<Segment>
    decreases steps
  {
    if steps == [] then None
    else
      match steps[0]
      case Sequential(segs) => if segs == [] then None else Some(segs[0])
      case SubWorkflow(_, inner) => FirstDepartment(inner)
      case Gateway(parallel, exclusive) =>
        var first := FirstInBranches(parallel);
        if first.Some? then first else FirstInBranches(exclusive)
      case CallPlan(_) => None
  }

  function FirstInBranches(bs: seq<Branch>): Option<Segment>
    decreases bs
  {
    if bs == [] then None
    else
      var first := if bs[0].Onward? then FirstDepartment(bs[0].steps) else None;
      if first.Some? then first else FirstInBranches(bs[1..])
  }

  // ----- the shared store and the buffer -----

  function Count(sd: Store, lane: Lane): nat {
    if lane in sd.segments then sd.segments[lane] else 0
  }

  function EnsureDept(sd: Store, s: Segment): Store {
    if s in sd.index then sd
    else sd.(index := sd.index[s := |sd.depts|], depts := sd.depts + [Department(s, [])])
  }

  function AppendStage(sd: Store, s: Segment, stage: Sym): Store {
    var i := if s in sd.index then sd.index[s] else 0;
    if i >= |sd.depts| then sd
    else
      var d := sd.depts[i];
      sd.(depts := sd.depts[i := d.(stages := d.stages + [stage])], stages := sd.stages + 1)
  }

  // The lane's latest segment if it is still empty, else a new one.
  function LatestSegment(sd: Store, lane: Lane): (Store, Segment) {
    var count := Count(sd, lane);
    var latest := Segment(lane, count);
    if latest !in sd.index || count == 0 || StagesOf(sd, latest) != [] then
      var next := Segment(lane, count + 1);
      (EnsureDept(sd.(segments := sd.segments[lane := count + 1]), next), next)
    else (sd, latest)
  }

  function MarkNodeSegment(sd: Store, n: Node, s: Option<Segment>): Store {
    if s.None? || n in sd.nodeSegment then sd else sd.(nodeSegment := sd.nodeSegment[n := s.value])
  }

  function SegmentOf(p: Process, st: State, n: Node): (State, Segment) {
    var lane := LaneOf(p, n);
    var (sd, s) :=
      if st.loc.open.None? || st.loc.open.value.lane != lane || StartsSegment(p, n) then LatestSegment(st.sd, lane)
      else (st.sd, st.loc.open.value);
    (State(MarkNodeSegment(sd, n, Some(s)), st.loc.(open := Some(s))), s)
  }

  function AddToBuf(buf: seq<Segment>, s: Segment): seq<Segment> {
    if s in buf then buf else buf + [s]
  }

  function Flush(st: State): State {
    if st.loc.buf == [] then State(st.sd, st.loc.(open := None))
    else State(st.sd, st.loc.(open := None, steps := st.loc.steps + [Sequential(st.loc.buf)], buf := []))
  }

  function AddStep(st: State, step: Step): State {
    State(st.sd, st.loc.(steps := st.loc.steps + [step]))
  }

  // A task's stage goes to its segment, which joins the buffer.
  function AddTask(p: Process, st: State, n: Node): State {
    var (st1, s) := SegmentOf(p, st, n);
    State(AppendStage(st1.sd, s, Task(n)), st1.loc.(buf := AddToBuf(st1.loc.buf, s)))
  }

  function ReserveLanes(sd: Store, lanes: seq<Lane>): Store
    decreases lanes
  {
    if lanes == [] then sd
    else
      var l := lanes[0];
      var sd1 := if Count(sd, l) == 0 then EnsureDept(sd.(segments := sd.segments[l := 1]), Segment(l, 1)) else sd;
      ReserveLanes(sd1, lanes[1..])
  }

  // ----- the traversal -----

  // The nodes the budget still allows.
  function Left(sd: Store): nat {
    if sd.nodes > NODE_BUDGET then 0 else NODE_BUDGET + 1 - sd.nodes
  }

  function Fresh(rejoined: bool): Local {
    Local([], [], {}, None, rejoined)
  }

  // The parent state after a sub-traversal ended in s.
  function Back(st: State, s: State): State {
    State(s.sd, st.loc.(rejoined := s.loc.rejoined))
  }

  // The join the index answers; JoinUnique makes the choice one.
  ghost function JoinAt(G: Succ, back: set<Edge>, n: Node): (r: Option<Node>)
    ensures JoinOf(G, back, n, r)
  {
    assert exists r :: JoinOf(G, back, n, r) by {
      var r := JoinExists(G, back, n);
    }
    var r :| JoinOf(G, back, n, r);
    r
  }

  // A gateway that starts branches which must meet again.
  predicate Balanced(p: Process, n: Node) {
    HasKind(p.g, n, ParallelGateway) || HasKind(p.g, n, InclusiveGateway)
  }

  // Every split but an exclusive one has its join.
  ghost predicate SplitsMatched(p: Process) {
    forall n {:trigger JoinAt(p.g.outgoing, p.back, n)} ::
      Balanced(p, n) && |Nexts(p, n)| >= 2 ==> JoinAt(p.g.outgoing, p.back, n).Some?
  }

  ghost predicate Matched(ctx: Context) {
    SplitsMatched(ctx.p) && forall n :: n in ctx.bodies ==> SplitsMatched(ctx.bodies[n])
  }

  ghost predicate WithinBudget(sd: Store) {
    sd.nodes <= NODE_BUDGET && sd.stages <= STAGE_BUDGET + 1
  }

  // A traversal that goes on is within the budgets; one that stops is at most one visit over.
  ghost predicate Bounded(st: State, st': State, ok: bool) {
    WithinBudget(st.sd) ==>
      st'.sd.nodes <= NODE_BUDGET + 1 && st'.sd.stages <= STAGE_BUDGET + 1 && (ok ==> WithinBudget(st'.sd))
  }

  /**
   * What every part of a traversal keeps: the visit count never drops and stays
   * within the budgets, and an absorbed continuation stays absorbed.
   */
  ghost predicate Keeps(ctx: Context, st: State, st': State, ok: bool) {
    && st'.sd.nodes >= st.sd.nodes
    && Bounded(st, st', ok)
    && (st.loc.rejoined ==> st'.loc.rejoined)
    && (!ctx.stopAtCompiled ==> st'.loc.rejoined == st.loc.rejoined)
  }

  // What a traversal never fails for where every split but an exclusive one has its join.
  predicate Unexpected(e: Error) {
    e.NoMatchingJoin? || e.NoStart?
  }

  // A node visited for the first time, within the budget.
  function Visit(st: State, n: Node): State {
    State(st.sd.(nodes := st.sd.nodes + 1, visited := st.sd.visited + {n}), st.loc.(visited := st.loc.visited + {n}))
  }

  ghost function TraverseNode(ctx: Context, st: State, n: Node): (r: Outcome)
    ensures Keeps(ctx, st, r.st, r.Done?)
    ensures Matched(ctx) && r.Failed? ==> !Unexpected(r.error)
    decreases Left(st.sd), 0, 0
  {
    if ctx.stopAt == Some(n) then Done(st)
    else if ctx.stopAtCompiled && n in st.sd.visited then
      Done(if IsEnd(ctx.p.g, n) then st else State(st.sd, st.loc.(rejoined := true)))
    else if n in st.loc.visited then Done(st)
    else if st.sd.stages > STAGE_BUDGET || st.sd.nodes + 1 > NODE_BUDGET then
      Failed(StageBudgetExceeded, State(st.sd.(nodes := st.sd.nodes + 1), st.loc))
    else Compile(ctx, Visit(st, n), n)
  }

  ghost function TraverseAll(ctx: Context, st: State, ns: seq<Node>): (r: Outcome)
    ensures Keeps(ctx, st, r.st, r.Done?)
    ensures Matched(ctx) && r.Failed? ==> !Unexpected(r.error)
    decreases Left(st.sd), 1, |ns|
  {
    if ns == [] then Done(st)
    else
      var r := TraverseNode(ctx, st, ns[0]);
      if r.Failed? then r else TraverseAll(ctx, r.st, ns[1..])
  }

  // A task-like node goes on along its first forward flow only.
  ghost function TraverseFirst(ctx: Context, st: State, n: Node): (r: Outcome)
    ensures Keeps(ctx, st, r.st, r.Done?)
    ensures Matched(ctx) && r.Failed? ==> !Unexpected(r.error)
    decreases Left(st.sd), 1, 0
  {
    if Nexts(ctx.p, n) == [] then Done(st) else TraverseNode(ctx, st, Nexts(ctx.p, n)[0])
  }

  // A boundary event goes on along its first flow, forward or not.
  ghost function TraverseTarget(ctx: Context, st: State, n: Node): (r: Outcome)
    ensures Keeps(ctx, st, r.st, r.Done?)
    ensures Matched(ctx) && r.Failed? ==> !Unexpected(r.error)
    decreases Left(st.sd), 1, 0
  {
    match FirstTarget(ctx.p, n)
    case None => Done(st)
    case Some(target) => TraverseNode(ctx, st, target)
  }

  lemma LatestCounts(sd: Store, lane: Lane)
    ensures var sd' := LatestSegment(sd, lane).0;
            sd'.nodes == sd.nodes && sd'.stages == sd.stages && sd'.visited == sd.visited
  {
    hide StagesOf;
  }

  lemma AppendCounts(sd: Store, s: Segment, stage: Sym)
    ensures var sd' := AppendStage(sd, s, stage);
            sd'.nodes == sd.nodes && sd'.stages <= sd.stages + 1 && sd'.visited == sd.visited
  {
  }

  lemma AddTaskCounts(p: Process, st: State, n: Node)
    ensures AddTask(p, st, n).sd.nodes == st.sd.nodes && AddTask(p, st, n).sd.stages <= st.sd.stages + 1
    ensures AddTask(p, st, n).sd.visited == st.sd.visited && AddTask(p, st, n).loc.visited == st.loc.visited
    ensures AddTask(p, st, n).loc.rejoined == st.loc.rejoined && AddTask(p, st, n).loc.steps == st.loc.steps
  {
    hide LatestSegment, AppendStage, LaneOf, StartsSegment;
    LatestCounts(st.sd, LaneOf(p, n));
    var (st1, s) := SegmentOf(p, st, n);
    AppendCounts(st1.sd, s, Task(n));
  }

  // The element handlers, by node kind.
  ghost function Compile(ctx: Context, st: State, n: Node): (r: Outcome)
    ensures st.sd.stages <= STAGE_BUDGET ==> Keeps(ctx, st, r.st, r.Done?)
    ensures r.st.sd.nodes >= st.sd.nodes
    ensures Matched(ctx) && r.Failed? ==> !Unexpected(r.error)
    decreases Left(st.sd), 5, 0
  {
    if n in ctx.p.skipped || n !in ctx.p.g.kind then TraverseAll(ctx, st, Nexts(ctx.p, n))
    else
      AddTaskCounts(ctx.p, st, n);
      match ctx.p.g.kind[n]
      case StartEvent => Done(st)
      case EndEvent => Done(Flush(st))
      case UserTask => TraverseFirst(ctx, AddTask(ctx.p, st, n), n)
      case SendTask => TraverseFirst(ctx, AddTask(ctx.p, st, n), n)
      case ReceiveTask => TraverseFirst(ctx, AddTask(ctx.p, st, n), n)
      case ParallelGateway => HandleGateway(ctx, st, n, false)
      case InclusiveGateway => HandleGateway(ctx, st, n, false)
      case ExclusiveGateway => HandleGateway(ctx, st, n, true)
      case SubProcess => CompileSubProcess(ctx, st, n)
      case CallActivity => CompileCall(ctx, st, n)
      case TimerBoundaryEvent => TraverseTarget(ctx, st, n)
      case MessageBoundaryEvent => TraverseTarget(ctx, st, n)
      case ErrorBoundaryEvent => Done(st)
      case BoundaryEvent => TraverseAll(ctx, st, Nexts(ctx.p, n))
  }

  ghost function RevertsOf(p: Process, n: Node): seq<Branch> {
    Reverts(n, BackNexts(Outs(p.g.outgoing, n), n, p.back))
  }

  ghost function HandleGateway(ctx: Context, st: State, n: Node, exclusive: bool): (r: Outcome)
    ensures Keeps(ctx, st, r.st, r.Done?)
    ensures Matched(ctx) && (exclusive || Balanced(ctx.p, n)) && r.Failed? ==> !Unexpected(r.error)
    decreases Left(st.sd), 4, 0
  {
    var fwd := Nexts(ctx.p, n);
    var reverts := RevertsOf(ctx.p, n);
    if |fwd| <= 1 && reverts == [] then TraverseFirst(ctx, st, n)
    else if |fwd| <= 1 then SingleForward(ctx, Flush(st), n, fwd, reverts)
    else
      match JoinAt(ctx.p.g.outgoing, ctx.p.back, n)
      case None => SplitNoJoin(ctx, Flush(st), n, fwd, reverts, exclusive)
      case Some(join) => SplitWithJoin(ctx, Flush(st), n, fwd, reverts, join, exclusive)
  }

  // One way on beside the ways back: the branch only carries the condition.
  ghost function SingleForward(ctx: Context, st: State, n: Node, fwd: seq<Node>, reverts: seq<Branch>): (r: Outcome)
    ensures Keeps(ctx, st, r.st, r.Done?)
    ensures Matched(ctx) && r.Failed? ==> !Unexpected(r.error)
    decreases Left(st.sd), 3, 0
  {
    if fwd == [] then Done(AddStep(st, Gateway([], reverts)))
    else
      var onward := Onward(Edge(n, fwd[0]), [], IsEnd(ctx.p.g, fwd[0]));
      TraverseNode(ctx, AddStep(st, Gateway([], [onward] + reverts)), fwd[0])
  }

  ghost function SplitNoJoin(ctx: Context, st: State, n: Node, fwd: seq<Node>, reverts: seq<Branch>,
                             exclusive: bool): (r: Outcome)
    ensures Keeps(ctx, st, r.st, r.Done?)
    ensures Matched(ctx) && exclusive && r.Failed? ==> !Unexpected(r.error)
    decreases Left(st.sd), 3, 0
  {
    if !exclusive then Failed(NoMatchingJoin(n), st)
    else
      match Branches(ctx, st, n, fwd, None, true)
      case BranchFailed(e, s) => Failed(e, s)
      case Branched(s, bs) => Done(AddStep(s, Gateway([], bs + reverts)))
  }

  ghost function SplitWithJoin(ctx: Context, st: State, n: Node, fwd: seq<Node>, reverts: seq<Branch>, join: Node,
                               exclusive: bool): (r: Outcome)
    ensures Keeps(ctx, st, r.st, r.Done?)
    ensures Matched(ctx) && r.Failed? ==> !Unexpected(r.error)
    decreases Left(st.sd), 3, 0
  {
    match Branches(ctx, st, n, fwd, Some(join), false)
    case BranchFailed(e, s) => Failed(e, s)
    case Branched(s, bs) =>
      var step := if exclusive then Gateway([], bs + reverts) else Gateway(bs, reverts);
      TraverseNode(ctx, AddStep(s, step), join)
  }

  // Each branch is compiled by a state of its own, from the last to the first call back.
  ghost function Branches(ctx: Context, st: State, n: Node, starts: seq<Node>, stop: Option<Node>,
                          terminates: bool): (r: BranchOutcome)
    ensures Keeps(ctx, st, r.st, r.Branched?)
    ensures Matched(ctx) && r.BranchFailed? ==> !Unexpected(r.error)
    decreases Left(st.sd), 2, |starts|
  {
    if starts == [] then Branched(st, [])
    else
      match BranchSteps(ctx, st, starts[0], stop)
      case SubFailed(e, s) => BranchFailed(e, s)
      case SubDone(s, steps) =>
        match Branches(ctx, s, n, starts[1..], stop, terminates)
        case BranchFailed(e, s') => BranchFailed(e, s')
        case Branched(s', bs) => Branched(s', [Onward(Edge(n, starts[0]), steps, terminates)] + bs)
  }

  ghost function BranchSteps(ctx: Context, st: State, start: Node, stop: Option<Node>): (r: SubOutcome)
    ensures Keeps(ctx, st, r.st, r.SubDone?)
    ensures Matched(ctx) && r.SubFailed? ==> !Unexpected(r.error)
    decreases Left(st.sd), 1, 0
  {
    match TraverseNode(ctx.(stopAt := stop), State(st.sd, Fresh(st.loc.rejoined)), start)
    case Failed(e, s) => SubFailed(e, Back(st, s))
    case Done(s) => SubDone(Back(st, Flush(s)), Flush(s).loc.steps)
  }

  // A sub-process's body; its tasks outside every lane take the sub-process's lane.
  function Body(p: Process, bodies: Bodies, n: Node): Process
    requires n in bodies
  {
    bodies[n].(defaultLane := LaneOf(p, n))
  }

  // The body shares the store.
  ghost function RunBody(ctx: Context, st: State, n: Node): (r: SubOutcome)
    requires n in ctx.bodies
    ensures Keeps(ctx, st, r.st, r.SubDone?)
    ensures Matched(ctx) && r.SubFailed? ==> !Unexpected(r.error)
    decreases Left(st.sd), 3, 0
  {
    var bctx := Context(Body(ctx.p, ctx.bodies, n), map[], None, false);
    match RunProcess(bctx, State(st.sd, Fresh(false)))
    case Failed(e, s) => SubFailed(e, State(s.sd, st.loc))
    case Done(s) => SubDone(State(s.sd, st.loc), s.loc.steps)
  }

  ghost function RunProcess(ctx: Context, st: State): (r: Outcome)
    ensures Keeps(ctx, st, r.st, r.Done?)
    ensures Matched(ctx) && r.Failed? ==> !Unexpected(r.error)
    decreases Left(st.sd), 2, 0
  {
    var r := if ctx.p.start.None? then Done(st) else TraverseFirst(ctx, st, ctx.p.start.value);
    if r.Failed? then r else BoundaryPaths(ctx, r.st, ctx.p.boundaries)
  }

  /** A process compiled from an empty store, entered at its start event or, having none, at its implicit start. */
  ghost function CompilePlan(p: Process, bodies: Bodies, implicit: Option<Node>): (r: Outcome)
    ensures r.st.sd.nodes <= NODE_BUDGET + 1 && r.st.sd.stages <= STAGE_BUDGET + 1
    ensures r.Done? ==> r.st.sd.nodes <= NODE_BUDGET
    ensures Matched(Context(p, bodies, None, false)) && r.Failed? ==>
              if p.start.None? && implicit.None? then r.error.NoStart? else !Unexpected(r.error)
  {
    var ctx := Context(p, bodies, None, false);
    var st := State(EMPTY_STORE, Fresh(false));
    if p.start.Some? then RunProcess(ctx, st)
    else if implicit.None? then Failed(NoStart, st)
    else
      var r := TraverseNode(ctx, st, implicit.value);
      if r.Failed? then r else BoundaryPaths(ctx, r.st, p.boundaries)
  }

  // Where a boundary leads is compiled apart, unless the main flow compiled it already.
  ghost function BoundaryPath(ctx: Context, st: State, be: Node): (r: Outcome)
    ensures Keeps(ctx, st, r.st, r.Done?)
    ensures Matched(ctx) && r.Failed? ==> !Unexpected(r.error)
    decreases Left(st.sd), 1, 0
  {
    var task := BoundaryTask(ctx.p, be);
    if task.None? || task.value in st.sd.nodeSegment then Done(st)
    else
      match TraverseNode(Context(ctx.p, ctx.bodies, None, true), State(st.sd, Fresh(false)),
          FirstTarget(ctx.p, be).value)
      case Failed(e, s) => Failed(e, State(s.sd, st.loc))
      case Done(s) => Done(State(RecordPath(s, be), st.loc))
  }

  // A continuation that came back to the main flow has no steps of its own.
  function RecordPath(s: State, be: Node): Store {
    if s.loc.rejoined then s.sd
    else s.sd.(boundarySteps := s.sd.boundarySteps[be := Flush(s).loc.steps])
  }

  ghost function BoundaryPaths(ctx: Context, st: State, bs: seq<Node>): (r: Outcome)
    ensures Keeps(ctx, st, r.st, r.Done?)
    ensures Matched(ctx) && r.Failed? ==> !Unexpected(r.error)
    decreases Left(st.sd), 1, |bs|
  {
    if bs == [] then Done(st)
    else
      var r := BoundaryPath(ctx, st, bs[0]);
      if r.Failed? then r else BoundaryPaths(ctx, r.st, bs[1..])
  }

  ghost function CompileSubProcess(ctx: Context, st: State, n: Node): (r: Outcome)
    ensures Keeps(ctx, st, r.st, r.Done?)
    ensures Matched(ctx) && r.Failed? ==> !Unexpected(r.error)
    decreases Left(st.sd), 4, 0
  {
    if n !in ctx.bodies then Failed(BodyNotFound(n), st)
    else
      match RunBody(ctx, st, n)
      case SubFailed(e, s) => Failed(e, s)
      case SubDone(s, steps) =>
        var s1 := Flush(State(MarkNodeSegment(s.sd, n, FirstDepartment(steps)), s.loc));
        TraverseFirst(ctx, AddStep(s1, SubWorkflow(n, steps)), n)
  }

  ghost function CompileCall(ctx: Context, st: State, n: Node): (r: Outcome)
    ensures Keeps(ctx, st, r.st, r.Done?)
    ensures Matched(ctx) && r.Failed? ==> !Unexpected(r.error)
    decreases Left(st.sd), 4, 0
  {
    if n in ctx.p.failing then Failed(CallNotCompiled(n), st)
    else
      var lanes := if n in ctx.p.reserved then ctx.p.reserved[n] else [];
      ReserveKeepsNodes(st.sd, lanes);
      TraverseFirst(ctx, AddStep(Flush(State(ReserveLanes(st.sd, lanes), st.loc)), CallPlan(n)), n)
  }

  lemma {:induction false} ReserveKeepsNodes(sd: Store, lanes: seq<Lane>)
    ensures ReserveLanes(sd, lanes).nodes == sd.nodes
    ensures ReserveLanes(sd, lanes).stages == sd.stages && ReserveLanes(sd, lanes).visited == sd.visited
    decreases lanes
  {
    if lanes != [] {
      var l := lanes[0];
      ReserveKeepsNodes(if Count(sd, l) == 0 then EnsureDept(sd.(segments := sd.segments[l := 1]), Segment(l, 1))
          else sd, lanes[1..]);
    }
  }
}

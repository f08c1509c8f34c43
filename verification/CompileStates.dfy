/**
 * The mutable compilation states of state.go and traverse.go, with the element
 * handlers as methods: each runs its part of the traversal in place, and ends
 * in the state the function of the same name in Traversal gives.
 */
module CompileStates {
  import opened Wrappers
  import opened Graphs
  import opened Bpmn
  import opened Languages
  import opened Plans
  import opened Joins
  import T = Traversal

  /** sharedDeptsStore: one store for all the states of a compilation. */
  class SharedStore {
    var depts: seq<Department>
    var index: map<Segment, nat>
    var segments: map<Lane, nat>
    var nodeSegment: map<Node, Segment>
    var visited: set<Node>
    var boundarySteps: map<Node, seq<Step>>
    var stages: nat
    var nodes: nat

    ghost function Snap(): Store
      reads this
    {
      Store(depts, index, segments, nodeSegment, visited, boundarySteps, stages, nodes)
    }

    constructor ()
      ensures Snap() == EMPTY_STORE
    {
      depts, index, segments, nodeSegment, visited, boundarySteps := [], map[], map[], map[], {}, map[];
      stages, nodes := 0, 0;
    }

    method EnsureDept(s: Segment)
      modifies this
      ensures Snap() == T.EnsureDept(old(Snap()), s)
    {
      if s in index {
        return;
      }
      index := index[s := |depts|];
      depts := depts + [Department(s, [])];
    }

    method AppendStage(s: Segment, stage: Sym)
      modifies this
      ensures Snap() == T.AppendStage(old(Snap()), s, stage)
    {
      var i := if s in index then index[s] else 0;
      if i < |depts| {
        depts := depts[i := depts[i].(stages := depts[i].stages + [stage])];
        stages := stages + 1;
      }
    }

    method LatestSegment(lane: Lane) returns (s: Segment)
      modifies this
      ensures (Snap(), s) == T.LatestSegment(old(Snap()), lane)
    {
      var count := if lane in segments then segments[lane] else 0;
      s := Segment(lane, count);
      if s !in index || count == 0 || (index[s] < |depts| && depts[index[s]].stages != []) {
        segments := segments[lane := count + 1];
        s := Segment(lane, count + 1);
        EnsureDept(s);
      }
    }

    method MarkNodeSegment(n: Node, s: Option<Segment>)
      modifies this
      ensures Snap() == T.MarkNodeSegment(old(Snap()), n, s)
    {
      if s.Some? && n !in nodeSegment {
        nodeSegment := nodeSegment[n := s.value];
      }
    }

    method ReserveLanes(lanes: seq<Lane>)
      modifies this
      ensures Snap() == T.ReserveLanes(old(Snap()), lanes)
    {
      for i := 0 to |lanes|
        invariant T.ReserveLanes(old(Snap()), lanes) == T.ReserveLanes(Snap(), lanes[i..])
      {
        var l := lanes[i];
        assert lanes[i..][0] == l && lanes[i..][1..] == lanes[i + 1..];
        if l !in segments || segments[l] == 0 {
          segments := segments[l := 1];
          EnsureDept(Segment(l, 1));
        }
      }
      assert lanes[|lanes|..] == [];
    }
  }

  /** Whether a boundary continuation came back to what was compiled before it. */
  class Flag {
    var raised: bool

    constructor ()
      ensures !raised
    {
      raised := false;
    }
  }

  /** The join index, built when a split first asks for its join. */
  class LazyJoins {
    var index: JoinIndex?

    ghost predicate Ready(g: Graph, back: set<Edge>)
      reads this, index
    {
      index != null ==> index.Valid() && index.g == g && index.back == back
    }

    constructor ()
      ensures index == null
    {
      index := null;
    }

    method Get(g: Graph, back: set<Edge>) returns (j: JoinIndex)
      requires Ready(g, back)
      modifies this
      ensures Ready(g, back) && j == index
    {
      if index == null {
        index := new JoinIndex(g, back);
      }
      j := index;
    }
  }

  // What a parent makes of a state of its own that ended.

  function BodyOutcome(st: T.State, r: T.Outcome): T.SubOutcome {
    match r
    case Failed(e, s) => T.SubFailed(e, T.State(s.sd, st.loc))
    case Done(s) => T.SubDone(T.State(s.sd, st.loc), s.loc.steps)
  }

  function BranchOutcome(st: T.State, r: T.Outcome): T.SubOutcome {
    match r
    case Failed(e, s) => T.SubFailed(e, T.Back(st, s))
    case Done(s) => T.SubDone(T.Back(st, T.Flush(s)), T.Flush(s).loc.steps)
  }

  function PathOutcome(st: T.State, be: Node, r: T.Outcome): T.Outcome {
    match r
    case Failed(e, s) => T.Failed(e, T.State(s.sd, st.loc))
    case Done(s) => T.Done(T.State(T.RecordPath(s, be), st.loc))
  }

  lemma RunsBody(ctx: T.Context, st: T.State, n: Node)
    requires n in ctx.bodies
    ensures var bctx := T.Context(T.Body(ctx.p, ctx.bodies, n), map[], None, false);
            T.RunBody(ctx, st, n) == BodyOutcome(st, T.RunProcess(bctx, T.State(st.sd, T.Fresh(false))))
  {
    hide T.RunProcess, T.Matched, T.Keeps;
  }

  lemma RunsBranch(ctx: T.Context, st: T.State, start: Node, stop: Option<Node>)
    ensures T.BranchSteps(ctx, st, start, stop)
         == BranchOutcome(st, T.TraverseNode(ctx.(stopAt := stop), T.State(st.sd, T.Fresh(st.loc.rejoined)), start))
  {
    hide T.TraverseNode, T.Matched, T.Keeps;
  }

  lemma RunsPath(ctx: T.Context, st: T.State, be: Node)
    requires T.BoundaryTask(ctx.p, be).Some? && T.BoundaryTask(ctx.p, be).value !in st.sd.nodeSegment
    ensures var path, sub := T.Context(ctx.p, ctx.bodies, None, true), T.State(st.sd, T.Fresh(false));
            T.BoundaryPath(ctx, st, be) == PathOutcome(st, be,
                T.TraverseNode(path, sub, T.FirstTarget(ctx.p, be).value))
  {
    hide T.TraverseNode, T.Matched, T.Keeps, T.TaskAhead;
  }

  class CompileState {
    const p: T.Process
    const bodies: T.Bodies
    const stopAt: Option<Node>
    const stopAtCompiled: bool
    const sd: SharedStore
    const joins: LazyJoins
    const rejoined: Flag?

    var steps: seq<Step>
    var buf: seq<Segment>
    var visited: set<Node>
    var open: Option<Segment>

    ghost predicate Valid()
      reads joins, joins.index
    {
      joins.Ready(p.g, p.back) && (stopAtCompiled <==> rejoined != null)
    }

    ghost function Frame(): set<object> {
      {this, sd, joins} + if rejoined == null then {} else {rejoined}
    }

    ghost function Snap(): T.State
      reads this, sd, rejoined
    {
      T.State(sd.Snap(), T.Local(steps, buf, visited, open, rejoined != null && rejoined.raised))
    }

    ghost function Ctx(): T.Context {
      T.Context(p, bodies, stopAt, stopAtCompiled)
    }

    ghost function Result(err: Option<T.Error>): T.Outcome
      reads this, sd, rejoined
    {
      if err.None? then T.Done(Snap()) else T.Failed(err.value, Snap())
    }

    /** NewCompileState. */
    constructor Main(p: T.Process, bodies: T.Bodies)
      ensures Valid() && fresh(Frame()) && Ctx() == T.Context(p, bodies, None, false)
      ensures Snap() == T.State(EMPTY_STORE, T.Fresh(false))
    {
      this.p, this.bodies, stopAt, stopAtCompiled := p, bodies, None, false;
      sd := new SharedStore();
      joins := new LazyJoins();
      rejoined := null;
      steps, buf, visited, open := [], [], {}, None;
    }

    /** NewBranchState: steps, buffer, visits and open segment of its own, the rest shared. */
    constructor Branch(parent: CompileState, stopAt: Option<Node>)
      requires parent.Valid()
      ensures Valid() && Ctx() == parent.Ctx().(stopAt := stopAt)
      ensures sd == parent.sd && joins == parent.joins && rejoined == parent.rejoined
      ensures Snap() == T.State(parent.sd.Snap(), T.Fresh(parent.Snap().loc.rejoined))
    {
      p, bodies, this.stopAt, stopAtCompiled := parent.p, parent.bodies, stopAt, parent.stopAtCompiled;
      sd, joins, rejoined := parent.sd, parent.joins, parent.rejoined;
      steps, buf, visited, open := [], [], {}, None;
    }

    /** The branch state of a boundary continuation, with a flag of its own. */
    constructor Continuation(parent: CompileState)
      requires parent.Valid()
      ensures Valid() && Ctx() == T.Context(parent.p, parent.bodies, None, true)
      ensures sd == parent.sd && joins == parent.joins && fresh(rejoined)
      ensures Snap() == T.State(parent.sd.Snap(), T.Fresh(false))
    {
      p, bodies, stopAt, stopAtCompiled := parent.p, parent.bodies, None, true;
      sd, joins := parent.sd, parent.joins;
      rejoined := new Flag();
      steps, buf, visited, open := [], [], {}, None;
    }

    /** The state of a sub-process body: ShareSegmentsWith makes the parent's store its own. */
    constructor Inner(parent: CompileState, n: Node)
      requires n in parent.bodies
      ensures Valid() && Ctx() == T.Context(T.Body(parent.p, parent.bodies, n), map[], None, false)
      ensures sd == parent.sd && fresh(joins) && rejoined == null
      ensures Snap() == T.State(parent.sd.Snap(), T.Fresh(false))
    {
      p, bodies, stopAt, stopAtCompiled := T.Body(parent.p, parent.bodies, n), map[], None, false;
      sd := parent.sd;
      joins := new LazyJoins();
      rejoined := null;
      steps, buf, visited, open := [], [], {}, None;
    }

    method SegmentOf(n: Node) returns (s: Segment)
      modifies this, sd
      ensures (Snap(), s) == T.SegmentOf(p, old(Snap()), n)
    {
      hide T.LatestSegment, T.StartsSegment, T.MarkNodeSegment, LazyJoins.Ready;
      var lane := T.LaneOf(p, n);
      if open.None? || open.value.lane != lane || T.StartsSegment(p, n) {
        s := sd.LatestSegment(lane);
      } else {
        s := open.value;
      }
      open := Some(s);
      sd.MarkNodeSegment(n, Some(s));
    }

    method AddToSeqBuf(s: Segment)
      modifies this`buf
      ensures buf == T.AddToBuf(old(buf), s)
    {
      if s !in buf {
        buf := buf + [s];
      }
    }

    method FlushSeqBuf()
      modifies this
      ensures Snap() == T.Flush(old(Snap()))
    {
      open := None;
      if |buf| == 0 {
        return;
      }
      steps := steps + [Sequential(buf)];
      buf := [];
    }

    method AppendStep(step: Step)
      modifies this`steps
      ensures Snap() == T.AddStep(old(Snap()), step)
    {
      steps := steps + [step];
    }

    method ForwardNexts(n: Node) returns (fwd: seq<Node>)
      ensures fwd == T.Nexts(p, n)
    {
      fwd := [];
      var outs := Outs(p.g.outgoing, n);
      for i := 0 to |outs|
        invariant fwd == Keep(n, outs[..i], p.back)
      {
        assert outs[..i + 1] == outs[..i] + [outs[i]];
        KeepSnoc(n, outs[..i], outs[i], p.back);
        if Edge(n, outs[i]) !in p.back {
          fwd := fwd + [outs[i]];
        }
      }
      assert outs[..|outs|] == outs;
    }

    method BackNexts(n: Node) returns (targets: seq<Node>)
      ensures targets == T.BackNexts(Outs(p.g.outgoing, n), n, p.back)
    {
      targets := [];
      var outs := Outs(p.g.outgoing, n);
      for i := 0 to |outs|
        invariant targets + T.BackNexts(outs[i..], n, p.back) == T.BackNexts(outs, n, p.back)
      {
        assert outs[i..][1..] == outs[i + 1..];
        if Edge(n, outs[i]) in p.back {
          targets := targets + [outs[i]];
        }
      }
    }

    method RevertBranches(n: Node, targets: seq<Node>) returns (bs: seq<Branch>)
      ensures bs == T.Reverts(n, targets)
    {
      bs := [];
      for i := 0 to |targets|
        invariant bs + T.Reverts(n, targets[i..]) == T.Reverts(n, targets)
      {
        assert targets[i..][1..] == targets[i + 1..];
        bs := bs + [Revert(Edge(n, targets[i]))];
      }
    }

    // ----- the traversal -----

    method TraverseNode(n: Node) returns (err: Option<T.Error>)
      requires Valid()
      modifies Frame()
      ensures Valid() && Result(err) == T.TraverseNode(Ctx(), old(Snap()), n)
      decreases T.Left(sd.Snap()), 0, 0
    {
      hide T.Compile, T.Keeps, T.Matched, LazyJoins.Ready;
      if stopAt == Some(n) {
        return None;
      }
      if stopAtCompiled && n in sd.visited {
        if rejoined != null && !IsEnd(p.g, n) {
          rejoined.raised := true;
        }
        return None;
      }
      if n in visited {
        return None;
      }
      sd.nodes := sd.nodes + 1;
      if sd.stages > T.STAGE_BUDGET || sd.nodes > T.NODE_BUDGET {
        return Some(T.StageBudgetExceeded);
      }
      visited := visited + {n};
      sd.visited := sd.visited + {n};
      assert Snap() == T.Visit(old(Snap()), n);
      err := Compile(n);
    }

    method TraverseForwardNexts(n: Node) returns (err: Option<T.Error>)
      requires Valid()
      modifies Frame()
      ensures Valid() && Result(err) == T.TraverseAll(Ctx(), old(Snap()), T.Nexts(p, n))
      decreases T.Left(sd.Snap()), 2, 0
    {
      hide T.TraverseNode, T.Matched, LazyJoins.Ready;
      var fwd := ForwardNexts(n);
      for i := 0 to |fwd|
        invariant Valid() && T.Left(sd.Snap()) <= old(T.Left(sd.Snap()))
        invariant T.TraverseAll(Ctx(), old(Snap()), fwd) == T.TraverseAll(Ctx(), Snap(), fwd[i..])
      {
        assert fwd[i..][0] == fwd[i] && fwd[i..][1..] == fwd[i + 1..];
        err := TraverseNode(fwd[i]);
        if err.Some? {
          return;
        }
      }
      err := None;
    }

    method TraverseFirst(n: Node) returns (err: Option<T.Error>)
      requires Valid()
      modifies Frame()
      ensures Valid() && Result(err) == T.TraverseFirst(Ctx(), old(Snap()), n)
      decreases T.Left(sd.Snap()), 1, 0
    {
      hide T.TraverseNode, T.Matched, T.Keeps, LazyJoins.Ready;
      var nexts := ForwardNexts(n);
      if |nexts| > 0 {
        err := TraverseNode(nexts[0]);
      } else {
        err := None;
      }
    }

    method TraverseTarget(n: Node) returns (err: Option<T.Error>)
      requires Valid()
      modifies Frame()
      ensures Valid() && Result(err) == T.TraverseTarget(Ctx(), old(Snap()), n)
      decreases T.Left(sd.Snap()), 1, 0
    {
      hide T.TraverseNode, T.Matched, T.Keeps, LazyJoins.Ready;
      var target := T.FirstTarget(p, n);
      if target.None? {
        return None;
      }
      err := TraverseNode(target.value);
    }

    method CompileTask(n: Node) returns (err: Option<T.Error>)
      requires Valid()
      modifies Frame()
      ensures Valid() && Result(err) == T.TraverseFirst(Ctx(), T.AddTask(p, old(Snap()), n), n)
      decreases T.Left(sd.Snap()), 2, 0
    {
      hide T.TraverseFirst, T.Matched, T.Keeps, T.SegmentOf, T.AppendStage, T.AddToBuf, LazyJoins.Ready;
      T.AddTaskCounts(p, Snap(), n);
      var s := SegmentOf(n);
      sd.AppendStage(s, Task(n));
      AddToSeqBuf(s);
      assert Snap() == T.AddTask(p, old(Snap()), n);
      err := TraverseFirst(n);
    }

    // The element handlers, chosen by node type; a node without one is passed over.
    method Compile(n: Node) returns (err: Option<T.Error>)
      requires Valid()
      modifies Frame()
      ensures Valid() && Result(err) == T.Compile(Ctx(), old(Snap()), n)
      decreases T.Left(sd.Snap()), 5, 0
    {
      hide T.TraverseFirst, T.TraverseAll, T.TraverseTarget, T.HandleGateway, T.CompileSubProcess, T.CompileCall,
           T.AddTask, T.Matched, T.Keeps, T.Flush;
      if n in p.skipped || n !in p.g.kind {
        err := TraverseForwardNexts(n);
        return;
      }
      match p.g.kind[n] {
        case StartEvent => err := None;
        case EndEvent =>
          FlushSeqBuf();
          err := None;
        case UserTask => err := CompileTask(n);
        case SendTask => err := CompileTask(n);
        case ReceiveTask => err := CompileTask(n);
        case ParallelGateway => err := HandleGateway(n, false);
        case InclusiveGateway => err := HandleGateway(n, false);
        case ExclusiveGateway => err := HandleGateway(n, true);
        case SubProcess => err := CompileSubProcess(n);
        case CallActivity => err := CompileCall(n);
        case TimerBoundaryEvent => err := TraverseTarget(n);
        case MessageBoundaryEvent => err := TraverseTarget(n);
        case ErrorBoundaryEvent => err := None;
        case BoundaryEvent => err := TraverseForwardNexts(n);
      }
    }

    method FindJoin(n: Node) returns (join: Option<Node>)
      requires Valid()
      modifies joins
      ensures Valid() && join == T.JoinAt(p.g.outgoing, p.back, n)
    {
      hide JoinOf;
      var index := joins.Get(p.g, p.back);
      join := index.Find(n);
      JoinUnique(p.g.outgoing, p.back, n, join, T.JoinAt(p.g.outgoing, p.back, n));
    }

    method HandleGateway(n: Node, exclusive: bool) returns (err: Option<T.Error>)
      requires Valid()
      modifies Frame()
      ensures Valid() && Result(err) == T.HandleGateway(Ctx(), old(Snap()), n, exclusive)
      decreases T.Left(sd.Snap()), 4, 0
    {
      hide T.TraverseFirst, T.SingleForward, T.SplitNoJoin, T.SplitWithJoin, T.JoinAt, T.Matched, T.Keeps, T.Nexts,
           T.BackNexts, T.Reverts;
      var fwd := ForwardNexts(n);
      var targets := BackNexts(n);
      var reverts := RevertBranches(n, targets);
      if |fwd| <= 1 && |targets| == 0 {
        err := TraverseFirst(n);
        return;
      }
      FlushSeqBuf();
      if |fwd| <= 1 {
        err := HandleSingleForwardWithReverts(n, fwd, reverts);
        return;
      }
      var join := FindJoin(n);
      if join.None? {
        err := HandleSplitNoJoin(n, fwd, reverts, exclusive);
      } else {
        err := HandleSplitWithJoin(n, fwd, reverts, join.value, exclusive);
      }
    }

    method HandleSingleForwardWithReverts(n: Node, fwd: seq<Node>, reverts: seq<Branch>) returns (err: Option<T.Error>)
      requires Valid()
      modifies Frame()
      ensures Valid() && Result(err) == T.SingleForward(Ctx(), old(Snap()), n, fwd, reverts)
      decreases T.Left(sd.Snap()), 3, 0
    {
      hide T.TraverseNode, T.Matched, T.Keeps, LazyJoins.Ready;
      var branches := [];
      if |fwd| > 0 {
        branches := [Onward(Edge(n, fwd[0]), [], IsEnd(p.g, fwd[0]))];
      }
      AppendStep(Gateway([], branches + reverts));
      if |fwd| > 0 {
        err := TraverseNode(fwd[0]);
      } else {
        assert branches + reverts == reverts;
        err := None;
      }
    }

    method HandleSplitNoJoin(n: Node, fwd: seq<Node>, reverts: seq<Branch>,
                             exclusive: bool) returns (err: Option<T.Error>)
      requires Valid()
      modifies Frame()
      ensures Valid() && Result(err) == T.SplitNoJoin(Ctx(), old(Snap()), n, fwd, reverts, exclusive)
      decreases T.Left(sd.Snap()), 3, 0
    {
      hide T.Branches, T.Matched, T.Keeps, LazyJoins.Ready;
      if !exclusive {
        return Some(T.NoMatchingJoin(n));
      }
      var branches;
      err, branches := TraverseBranches(n, fwd, None, true);
      if err.None? {
        AppendStep(Gateway([], branches + reverts));
      }
    }

    method HandleSplitWithJoin(n: Node, fwd: seq<Node>, reverts: seq<Branch>, join: Node,
                               exclusive: bool) returns (err: Option<T.Error>)
      requires Valid()
      modifies Frame()
      ensures Valid() && Result(err) == T.SplitWithJoin(Ctx(), old(Snap()), n, fwd, reverts, join, exclusive)
      decreases T.Left(sd.Snap()), 3, 0
    {
      hide T.Branches, T.Matched, T.TraverseNode, LazyJoins.Ready;
      var branches;
      err, branches := TraverseBranches(n, fwd, Some(join), false);
      if err.Some? {
        return;
      }
      AppendStep(if exclusive then Gateway([], branches + reverts) else Gateway(branches, reverts));
      err := TraverseNode(join);
    }

    ghost function BranchResult(err: Option<T.Error>, branches: seq<Branch>): T.BranchOutcome
      reads this, sd, rejoined
    {
      if err.None? then T.Branched(Snap(), branches) else T.BranchFailed(err.value, Snap())
    }

    method TraverseBranches(n: Node, starts: seq<Node>, stop: Option<Node>, terminates: bool)
      returns (err: Option<T.Error>, branches: seq<Branch>)
      requires Valid()
      modifies Frame()
      ensures Valid() && BranchResult(err, branches) == T.Branches(Ctx(), old(Snap()), n, starts, stop, terminates)
      decreases T.Left(sd.Snap()), 2, 0
    {
      hide T.BranchSteps, T.Branches, T.Matched, After, LazyJoins.Ready;
      branches := [];
      AfterNone(T.Branches(Ctx(), Snap(), n, starts, stop, terminates));
      for i := 0 to |starts|
        invariant Valid() && T.Left(sd.Snap()) <= old(T.Left(sd.Snap()))
        invariant T.Branches(Ctx(), old(Snap()), n, starts, stop, terminates)
               == After(branches, T.Branches(Ctx(), Snap(), n, starts[i..], stop, terminates))
      {
        assert starts[i..][0] == starts[i] && starts[i..][1..] == starts[i + 1..];
        var steps;
        NextBranch(Ctx(), Snap(), n, starts[i..], stop, terminates, branches);
        err, steps := BranchSteps(starts[i], stop);
        if err.Some? {
          return;
        }
        branches := branches + [Onward(Edge(n, starts[i]), steps, terminates)];
      }
      assert starts[|starts|..] == [];
      AfterAll(Ctx(), Snap(), n, stop, terminates, branches);
      err := None;
    }

    ghost function SubResult(err: Option<T.Error>, steps: seq<Step>): T.SubOutcome
      reads this, sd, rejoined
    {
      if err.None? then T.SubDone(Snap(), steps) else T.SubFailed(err.value, Snap())
    }

    method BranchSteps(start: Node, stop: Option<Node>) returns (err: Option<T.Error>, collected: seq<Step>)
      requires Valid()
      modifies Frame()
      ensures Valid() && SubResult(err, collected) == T.BranchSteps(Ctx(), old(Snap()), start, stop)
      decreases T.Left(sd.Snap()), 1, 0
    {
      RunsBranch(Ctx(), Snap(), start, stop);
      hide T.TraverseNode, T.BranchSteps, T.Matched, T.Keeps, LazyJoins.Ready;
      var bs := new CompileState.Branch(this, stop);
      err := bs.TraverseNode(start);
      if err.Some? {
        return err, [];
      }
      bs.FlushSeqBuf();
      collected := bs.steps;
    }

    method CompileSubProcessBody(n: Node) returns (err: Option<T.Error>, collected: seq<Step>)
      requires Valid() && n in bodies
      modifies sd
      ensures Valid() && SubResult(err, collected) == T.RunBody(Ctx(), old(Snap()), n)
      decreases T.Left(sd.Snap()), 3, 0
    {
      hide T.RunProcess, T.RunBody, T.Matched, T.Keeps, T.Body, T.Left, LazyJoins.Ready;
      ghost var st := Snap();
      RunsBody(Ctx(), st, n);
      var inner := new CompileState.Inner(this, n);
      assert Snap() == st && T.Left(inner.sd.Snap()) == T.Left(st.sd);
      err := inner.RunInnerState();
      ghost var r := inner.Result(err);
      assert r == T.RunProcess(T.Context(T.Body(p, bodies, n), map[], None, false), T.State(st.sd, T.Fresh(false)));
      collected := if err.Some? then [] else inner.steps;
    }

    method RunInnerState() returns (err: Option<T.Error>)
      requires Valid()
      modifies Frame()
      ensures Valid() && Result(err) == T.RunProcess(Ctx(), old(Snap()))
      decreases T.Left(sd.Snap()), 2, 0
    {
      hide T.TraverseFirst, T.BoundaryPaths, T.Matched, LazyJoins.Ready;
      if p.start.Some? {
        err := TraverseFirst(p.start.value);
        if err.Some? {
          return;
        }
      }
      err := CompileBoundaryPaths();
    }

    method CompileBoundaryPaths() returns (err: Option<T.Error>)
      requires Valid()
      modifies Frame()
      ensures Valid() && Result(err) == T.BoundaryPaths(Ctx(), old(Snap()), p.boundaries)
      decreases T.Left(sd.Snap()), 1, |p.boundaries| + 1
    {
      hide T.BoundaryPath, T.Matched, LazyJoins.Ready;
      var bs := p.boundaries;
      for i := 0 to |bs|
        invariant Valid() && T.Left(sd.Snap()) <= old(T.Left(sd.Snap()))
        invariant T.BoundaryPaths(Ctx(), old(Snap()), bs) == T.BoundaryPaths(Ctx(), Snap(), bs[i..])
      {
        assert bs[i..][0] == bs[i] && bs[i..][1..] == bs[i + 1..];
        err := CompileBoundaryPath(bs[i]);
        if err.Some? {
          return;
        }
      }
      err := None;
    }

    method CompileBoundaryPath(be: Node) returns (err: Option<T.Error>)
      requires Valid()
      modifies Frame()
      ensures Valid() && Result(err) == T.BoundaryPath(Ctx(), old(Snap()), be)
      decreases T.Left(sd.Snap()), 1, 0
    {
      hide T.TraverseNode, T.Matched, T.TaskAhead, T.Keeps, LazyJoins.Ready;
      var task := T.BoundaryTask(p, be);
      if task.None? || task.value in sd.nodeSegment {
        return None;
      }
      RunsPath(Ctx(), Snap(), be);
      hide T.BoundaryPath, T.BoundaryTask, T.Left;
      var path := new CompileState.Continuation(this);
      err := path.TraverseNode(T.FirstTarget(p, be).value);
      if err.Some? {
        return;
      }
      if !path.rejoined.raised {
        path.FlushSeqBuf();
        sd.boundarySteps := sd.boundarySteps[be := path.steps];
      }
    }

    method CompileSubProcess(n: Node) returns (err: Option<T.Error>)
      requires Valid()
      modifies Frame()
      ensures Valid() && Result(err) == T.CompileSubProcess(Ctx(), old(Snap()), n)
      decreases T.Left(sd.Snap()), 4, 0
    {
      hide T.RunBody, T.TraverseFirst, T.Matched, T.FirstDepartment, LazyJoins.Ready;
      if n !in bodies {
        return Some(T.BodyNotFound(n));
      }
      var inner;
      err, inner := CompileSubProcessBody(n);
      if err.Some? {
        return;
      }
      sd.MarkNodeSegment(n, T.FirstDepartment(inner));
      FlushSeqBuf();
      AppendStep(SubWorkflow(n, inner));
      err := TraverseFirst(n);
    }

    method CompileCall(n: Node) returns (err: Option<T.Error>)
      requires Valid()
      modifies Frame()
      ensures Valid() && Result(err) == T.CompileCall(Ctx(), old(Snap()), n)
      decreases T.Left(sd.Snap()), 4, 0
    {
      hide T.TraverseFirst, T.Matched, T.ReserveLanes, LazyJoins.Ready;
      if n in p.failing {
        return Some(T.CallNotCompiled(n));
      }
      var lanes := if n in p.reserved then p.reserved[n] else [];
      T.ReserveKeepsNodes(sd.Snap(), lanes);
      sd.ReserveLanes(lanes);
      FlushSeqBuf();
      AppendStep(CallPlan(n));
      err := TraverseFirst(n);
    }
  }

  // The branches made so far, before those still to come.
  function After(branches: seq<Branch>, r: T.BranchOutcome): T.BranchOutcome {
    match r
    case Branched(st, rest) => T.Branched(st, branches + rest)
    case BranchFailed(e, st) => r
  }

  lemma AfterNone(r: T.BranchOutcome)
    ensures After([], r) == r
  {
    if r.Branched? {
      assert [] + r.branches == r.branches;
    }
  }

  lemma AfterAll(ctx: T.Context, st: T.State, n: Node, stop: Option<Node>, terminates: bool, branches: seq<Branch>)
    ensures After(branches, T.Branches(ctx, st, n, [], stop, terminates)) == T.Branched(st, branches)
  {
    assert branches + [] == branches;
  }

  // One branch more is done before those still to come.
  lemma NextBranch(ctx: T.Context, st: T.State, n: Node, starts: seq<Node>, stop: Option<Node>, terminates: bool,
                   branches: seq<Branch>)
    requires starts != []
    ensures match T.BranchSteps(ctx, st, starts[0], stop)
            case SubFailed(e, s) => After(branches, T.Branches(ctx, st, n, starts, stop, terminates))
                == T.BranchFailed(e, s)
            case SubDone(s, steps) =>
              After(branches, T.Branches(ctx, st, n, starts, stop, terminates))
              == After(branches + [Onward(Edge(n, starts[0]), steps, terminates)],
                  T.Branches(ctx, s, n, starts[1..], stop, terminates))
  {
    hide T.BranchSteps, T.Matched, T.Keeps;
    match T.BranchSteps(ctx, st, starts[0], stop)
    case SubFailed(e, s) =>
    case SubDone(s, steps) =>
      var rest := T.Branches(ctx, s, n, starts[1..], stop, terminates);
      if rest.Branched? {
        var b := Onward(Edge(n, starts[0]), steps, terminates);
        assert branches + ([b] + rest.branches) == (branches + [b]) + rest.branches;
      }
  }

  /** CompileWithImplicitStart: the whole compilation, from a store of its own. */
  method CompileWithImplicitStart(p: T.Process, bodies: T.Bodies, implicit: Option<Node>)
    returns (err: Option<T.Error>, departments: seq<Department>, steps: seq<Step>)
    ensures var r := T.CompilePlan(p, bodies, implicit);
            && (err.None? <==> r.Done?)
            && (err.None? ==> steps == r.st.loc.steps && departments == r.st.sd.depts)
            && (err.Some? ==> err.value == r.error)
  {
    hide T.TraverseNode, T.TraverseFirst, T.BoundaryPaths, T.Matched, T.Keeps;
    departments, steps := [], [];
    if p.start.None? && implicit.None? {
      return Some(T.NoStart), [], [];
    }
    var state := new CompileState.Main(p, bodies);
    if p.start.Some? {
      err := state.RunInnerState();
    } else {
      err := state.TraverseNode(implicit.value);
      if err.None? {
        err := state.CompileBoundaryPaths();
      }
    }
    if err.None? {
      departments, steps := state.sd.depts, state.steps;
    }
  }
}

/**
 * A plan names each department segment at most once: what a traversal adds to its
 * steps and buffer names no segment that had stages before, so no two of its
 * steps, at any nesting, read the same stages.
 */
module SegmentReads {
  import opened Wrappers
  import opened Graphs
  import opened Bpmn
  import opened Languages
  import opened Plans
  import opened Traversal
  import opened Segments

  // ----- how often steps name a segment -----

  ghost function Names(steps: seq<Step>): multiset<Segment>
    decreases steps
  {
    if steps == [] then multiset{} else StepNames(steps[0]) + Names(steps[1..])
  }

  ghost function StepNames(step: Step): multiset<Segment>
    decreases step
  {
    match step
    case Sequential(segs) => multiset(segs)
    case Gateway(parallel, exclusive) => BranchesNames(parallel) + BranchesNames(exclusive)
    case SubWorkflow(_, steps) => Names(steps)
    case CallPlan(_) => multiset{}
  }

  ghost function BranchesNames(bs: seq<Branch>): multiset<Segment>
    decreases bs
  {
    if bs == [] then multiset{} else BranchNames(bs[0]) + BranchesNames(bs[1..])
  }

  ghost function BranchNames(b: Branch): multiset<Segment>
    decreases b
  {
    if b.Onward? then Names(b.steps) else multiset{}
  }

  lemma Regroup(a: multiset<Segment>, b: multiset<Segment>, c: multiset<Segment>)
    ensures a + (b + c) == (a + b) + c
  {
  }

  lemma {:induction false} NamesAppend(a: seq<Step>, b: seq<Step>)
    ensures Names(a + b) == Names(a) + Names(b)
  {
    hide StepNames;
    if a == [] {
      assert a + b == b;
    } else {
      NamesAppend(a[1..], b);
      assert (a + b)[1..] == a[1..] + b && (a + b)[0] == a[0];
      Regroup(StepNames(a[0]), Names(a[1..]), Names(b));
    }
  }

  lemma NamesOne(step: Step)
    ensures Names([step]) == StepNames(step)
  {
    assert Names([step][1..]) == multiset{};
  }

  lemma {:induction false} BranchesNamesAppend(a: seq<Branch>, b: seq<Branch>)
    ensures BranchesNames(a + b) == BranchesNames(a) + BranchesNames(b)
  {
    hide BranchNames;
    if a == [] {
      assert a + b == b;
    } else {
      BranchesNamesAppend(a[1..], b);
      assert (a + b)[1..] == a[1..] + b && (a + b)[0] == a[0];
      Regroup(BranchNames(a[0]), BranchesNames(a[1..]), BranchesNames(b));
    }
  }

  lemma {:induction false} RevertsNameNothing(reverts: seq<Branch>)
    requires forall b :: b in reverts ==> b.Revert?
    ensures BranchesNames(reverts) == multiset{}
  {
    if reverts != [] {
      assert reverts[0] in reverts;
      RevertsNameNothing(reverts[1..]);
    }
  }

  // The segments named are those read.
  lemma {:induction false} NamedIsRead(steps: seq<Step>)
    ensures forall s :: s in Names(steps) <==> s in SegsOf(steps)
    decreases steps
  {
    if steps != [] {
      StepNamedIsRead(steps[0]);
      NamedIsRead(steps[1..]);
    }
  }

  lemma {:induction false} StepNamedIsRead(step: Step)
    ensures forall s :: s in StepNames(step) <==> s in StepSegs(step)
    decreases step
  {
    match step
    case Sequential(_) =>
    case Gateway(parallel, exclusive) =>
      BranchesNamedAreRead(parallel);
      BranchesNamedAreRead(exclusive);
    case SubWorkflow(_, steps) => NamedIsRead(steps);
    case CallPlan(_) =>
  }

  lemma {:induction false} BranchesNamedAreRead(bs: seq<Branch>)
    ensures forall s :: s in BranchesNames(bs) <==> s in BranchesSegs(bs)
    decreases bs
  {
    if bs != [] {
      if bs[0].Onward? {
        NamedIsRead(bs[0].steps);
      }
      BranchesNamedAreRead(bs[1..]);
      assert forall s :: s in BranchNames(bs[0]) <==> s in BranchSegs(bs[0]);
    }
  }

  // ----- what a state names -----

  ghost function NamesOf(loc: Local): multiset<Segment> {
    Names(loc.steps) + multiset(loc.buf)
  }

  // Each at most once.
  ghost predicate Once(m: multiset<Segment>) {
    forall s :: m[s] <= 1
  }

  // None that had stages.
  ghost predicate Unread(sd: Store, m: multiset<Segment>) {
    forall s :: s in m ==> !Filled(sd, s)
  }

  ghost predicate New(sd: Store, m: multiset<Segment>) {
    Once(m) && Unread(sd, m)
  }

  // What is named more than before is new.
  ghost predicate Reads(st: State, st': State) {
    && (Once(NamesOf(st.loc)) ==> Once(NamesOf(st'.loc)))
    && (forall s :: s in NamesOf(st'.loc) && s !in NamesOf(st.loc) ==> !Filled(st.sd, s))
  }

  lemma ReadsSelf(st: State)
    ensures Reads(st, st)
  {
  }

  lemma ReadsTrans(a: State, b: State, c: State)
    requires Reads(a, b) && Reads(b, c) && Goes(a, b)
    ensures Reads(a, c)
  {
    hide Sound, Filled, StagesOf, NamesOf;
  }

  // A change that leaves steps and buffer alone.
  lemma SameNames(st: State, s: State)
    requires s.loc.steps == st.loc.steps && s.loc.buf == st.loc.buf
    ensures Reads(st, s)
  {
  }

  lemma NamedFilled(st: State)
    requires Sound(st)
    ensures forall s :: s in NamesOf(st.loc) ==> Filled(st.sd, s)
  {
    hide StoreOk, Filled, OpenLast;
    NamedIsRead(st.loc.steps);
    forall s | s in NamesOf(st.loc)
      ensures Filled(st.sd, s)
    {
      assert s in SegsOf(st.loc.steps) || s in BufSegs(st.loc.buf);
    }
  }

  lemma FlushNames(st: State)
    ensures NamesOf(Flush(st).loc) == NamesOf(st.loc)
  {
    if st.loc.buf != [] {
      NamesAppend(st.loc.steps, [Sequential(st.loc.buf)]);
      NamesOne(Sequential(st.loc.buf));
    }
  }

  lemma FlushReads(st: State)
    ensures Reads(st, Flush(st))
  {
    FlushNames(st);
  }

  // A step that names only what had no stages when the state last went on.
  lemma StepReads(st: State, s: State, step: Step)
    requires Sound(st) && s.loc.steps == st.loc.steps && s.loc.buf == st.loc.buf && New(st.sd, StepNames(step))
    ensures Reads(st, AddStep(s, step))
  {
    hide Sound, Filled, StepNames;
    NamedFilled(st);
    NamesAppend(st.loc.steps, [step]);
    NamesOne(step);
    assert NamesOf(AddStep(s, step).loc) == NamesOf(st.loc) + StepNames(step);
  }

  lemma TaskNamed(p: Process, st: State, n: Node)
    requires Sound(st)
    ensures Reads(st, AddTask(p, st, n))
  {
    hide StoreOk, StagesOf, SegsOf, Kept, Filled, LaneOf, StartsSegment, AddTask, Names, AllFilled;
    NamedFilled(st);
    AddTaskPlaces(p, st, n);
    TaskBuffer(p, st, n);
    var st' := AddTask(p, st, n);
    var s := st'.loc.open.value;
    if s !in st.loc.buf {
      assert NamesOf(st'.loc) == NamesOf(st.loc) + multiset{s};
      hide NamesOf;
      assert !Filled(st.sd, s) by { OpenIsBuffered(st); }
    }
  }

  lemma TaskBuffer(p: Process, st: State, n: Node)
    ensures var st' := AddTask(p, st, n);
            && st'.loc.open.Some? && st'.loc.steps == st.loc.steps
            && st'.loc.buf == (if st'.loc.open.value in st.loc.buf then st.loc.buf
                else st.loc.buf + [st'.loc.open.value])
  {
    hide LatestSegment, MarkNodeSegment, AppendStage, LaneOf, StartsSegment;
  }

  lemma OpenIsBuffered(st: State)
    requires Sound(st)
    ensures st.loc.open.Some? ==> st.loc.open.value in st.loc.buf
  {
    hide StoreOk, AllFilled, SegsOf;
  }

  // ----- over the traversal -----

  lemma NodeReads(ctx: Context, st: State, n: Node)
    requires Sound(st)
    ensures var r := TraverseNode(ctx, st, n); r.Done? ==> Reads(st, r.st)
    decreases Left(st.sd), 0, 0
  {
    hide Sound, Goes, Reads, Compile, IsEnd, Matched;
    ReadsSelf(st);
    if ctx.stopAt == Some(n) {
    } else if ctx.stopAtCompiled && n in st.sd.visited {
      SameNames(st, State(st.sd, st.loc.(rejoined := true)));
    } else if n in st.loc.visited {
    } else if st.sd.stages > STAGE_BUDGET || st.sd.nodes + 1 > NODE_BUDGET {
    } else {
      var v := Visit(st, n);
      VisitGoes(st, n);
      GoesSound(st, v);
      SameNames(st, v);
      CompileReads(ctx, v, n);
      if Compile(ctx, v, n).Done? {
        ReadsTrans(st, v, Compile(ctx, v, n).st);
      }
    }
  }

  lemma AllReads(ctx: Context, st: State, ns: seq<Node>)
    requires Sound(st)
    ensures var r := TraverseAll(ctx, st, ns); r.Done? ==> Reads(st, r.st)
    decreases Left(st.sd), 1, |ns|
  {
    hide Sound, Goes, Reads, TraverseNode, Matched;
    if ns == [] {
      ReadsSelf(st);
    } else {
      var r := TraverseNode(ctx, st, ns[0]);
      NodeReads(ctx, st, ns[0]);
      NodeGoes(ctx, st, ns[0]);
      if r.Done? {
        GoesSound(st, r.st);
        AllReads(ctx, r.st, ns[1..]);
        if TraverseAll(ctx, st, ns).Done? {
          ReadsTrans(st, r.st, TraverseAll(ctx, st, ns).st);
        }
      }
    }
  }

  lemma FirstReads(ctx: Context, st: State, n: Node)
    requires Sound(st)
    ensures var r := TraverseFirst(ctx, st, n); r.Done? ==> Reads(st, r.st)
    decreases Left(st.sd), 1, 0
  {
    hide Sound, Reads, TraverseNode, Matched;
    ReadsSelf(st);
    if Nexts(ctx.p, n) != [] {
      NodeReads(ctx, st, Nexts(ctx.p, n)[0]);
    }
  }

  lemma TargetReads(ctx: Context, st: State, n: Node)
    requires Sound(st)
    ensures var r := TraverseTarget(ctx, st, n); r.Done? ==> Reads(st, r.st)
    decreases Left(st.sd), 1, 0
  {
    hide Sound, Reads, TraverseNode, Matched;
    ReadsSelf(st);
    if FirstTarget(ctx.p, n).Some? {
      NodeReads(ctx, st, FirstTarget(ctx.p, n).value);
    }
  }

  // From a state that went on to another, and on along the first forward flow.
  lemma ThenFirst(ctx: Context, st: State, st1: State, n: Node)
    requires Reads(st, st1) && Goes(st, st1) && st1.sd.nodes >= st.sd.nodes
    ensures var r := TraverseFirst(ctx, st1, n); r.Done? ==> Reads(st, r.st)
    decreases Left(st1.sd), 2, 0
  {
    hide Sound, Goes, Reads, TraverseFirst, Matched;
    GoesSound(st, st1);
    FirstReads(ctx, st1, n);
    if TraverseFirst(ctx, st1, n).Done? {
      ReadsTrans(st, st1, TraverseFirst(ctx, st1, n).st);
    }
  }

  lemma TaskReads(ctx: Context, st: State, n: Node)
    requires Sound(st)
    ensures var r := TraverseFirst(ctx, AddTask(ctx.p, st, n), n); r.Done? ==> Reads(st, r.st)
    decreases Left(st.sd), 3, 0
  {
    hide Sound, Goes, Reads, AddTask, TraverseFirst, Matched;
    AddTaskGoes(ctx.p, st, n);
    AddTaskCounts(ctx.p, st, n);
    TaskNamed(ctx.p, st, n);
    ThenFirst(ctx, st, AddTask(ctx.p, st, n), n);
  }

  lemma CompileReads(ctx: Context, st: State, n: Node)
    requires Sound(st)
    ensures var r := Compile(ctx, st, n); r.Done? ==> Reads(st, r.st)
    decreases Left(st.sd), 5, 0
  {
    hide Sound, Reads, AddTask, TraverseFirst, TraverseAll, TraverseTarget, HandleGateway, CompileSubProcess,
         CompileCall, Flush, Matched;
    if n in ctx.p.skipped || n !in ctx.p.g.kind {
      AllReads(ctx, st, Nexts(ctx.p, n));
    } else {
      ReadsSelf(st);
      match ctx.p.g.kind[n]
      case StartEvent =>
      case EndEvent => FlushReads(st);
      case UserTask => TaskReads(ctx, st, n);
      case SendTask => TaskReads(ctx, st, n);
      case ReceiveTask => TaskReads(ctx, st, n);
      case ParallelGateway => GatewayReads(ctx, st, n, false);
      case InclusiveGateway => GatewayReads(ctx, st, n, false);
      case ExclusiveGateway => GatewayReads(ctx, st, n, true);
      case SubProcess => SubProcessReads(ctx, st, n);
      case CallActivity => CallReads(ctx, st, n);
      case TimerBoundaryEvent => TargetReads(ctx, st, n);
      case MessageBoundaryEvent => TargetReads(ctx, st, n);
      case ErrorBoundaryEvent =>
      case BoundaryEvent => AllReads(ctx, st, Nexts(ctx.p, n));
    }
  }

  lemma GatewayReads(ctx: Context, st: State, n: Node, exclusive: bool)
    requires Sound(st)
    ensures var r := HandleGateway(ctx, st, n, exclusive); r.Done? ==> Reads(st, r.st)
    decreases Left(st.sd), 4, 0
  {
    hide Sound, Goes, Reads, TraverseFirst, SingleForward, SplitNoJoin, SplitWithJoin, Flush, Matched, Reverts, JoinAt;
    var fwd := Nexts(ctx.p, n);
    var reverts := RevertsOf(ctx.p, n);
    if |fwd| <= 1 && reverts == [] {
      FirstReads(ctx, st, n);
    } else {
      FlushGoes(st);
      GoesSound(st, Flush(st));
      FlushReads(st);
      if |fwd| <= 1 {
        SingleReads(ctx, Flush(st), n, fwd, reverts);
      } else if JoinAt(ctx.p.g.outgoing, ctx.p.back, n).None? {
        NoJoinReads(ctx, Flush(st), n, fwd, reverts, exclusive);
      } else {
        WithJoinReads(ctx, Flush(st), n, fwd, reverts, JoinAt(ctx.p.g.outgoing, ctx.p.back, n).value, exclusive);
      }
      if HandleGateway(ctx, st, n, exclusive).Done? {
        ReadsTrans(st, Flush(st), HandleGateway(ctx, st, n, exclusive).st);
      }
    }
  }

  // The state, apart from what its branches did to the store, appends a new step and goes on.
  lemma StepThen(ctx: Context, st: State, s: State, step: Step, next: Node)
    requires Sound(st) && Apart(st, s) && st.loc.buf == [] && New(st.sd, StepNames(step))
    requires AllFilled(s.sd, StepSegs(step)) && s.sd.nodes >= st.sd.nodes
    ensures var r := TraverseNode(ctx, AddStep(s, step), next); r.Done? ==> Reads(st, r.st)
    decreases Left(s.sd), 1, 0
  {
    hide Sound, Goes, Reads, TraverseNode, Matched, StepSegs, AllFilled, New, AddStep, StepNames;
    StepAfterBranches(st, s, step);
    StepReadsApart(st, s, step);
    GoesSound(st, AddStep(s, step));
    SameStore(s, step);
    NodeReads(ctx, AddStep(s, step), next);
    var r := TraverseNode(ctx, AddStep(s, step), next);
    if r.Done? {
      ReadsTrans(st, AddStep(s, step), r.st);
    }
  }

  lemma SameStore(s: State, step: Step)
    ensures AddStep(s, step).sd == s.sd
  {
  }

  lemma StepReadsApart(st: State, s: State, step: Step)
    requires Sound(st) && Apart(st, s) && New(st.sd, StepNames(step))
    ensures Reads(st, AddStep(s, step))
  {
    hide Sound, Kept, Reads, New, StepNames;
    StepReads(st, s, step);
  }

  lemma SingleReads(ctx: Context, st: State, n: Node, fwd: seq<Node>, reverts: seq<Branch>)
    requires Sound(st) && st.loc.buf == [] && forall b :: b in reverts ==> b.Revert?
    ensures var r := SingleForward(ctx, st, n, fwd, reverts); r.Done? ==> Reads(st, r.st)
    decreases Left(st.sd), 3, 0
  {
    hide Sound, Reads, TraverseNode, Matched, IsEnd, AddStep, Filled, Apart;
    ApartSelf(st);
    RevertsNameNothing(reverts);
    if fwd == [] {
      StepReadsApart(st, st, Gateway([], reverts));
    } else {
      var onward := Onward(Edge(n, fwd[0]), [], IsEnd(ctx.p.g, fwd[0]));
      var step := Gateway([], [onward] + reverts);
      assert StepNames(step) == multiset{} by {
        assert [onward][1..] == [] && BranchNames(onward) == Names([]);
        BranchesNamesAppend([onward], reverts);
      }
      StepNamedIsRead(step);
      StepThen(ctx, st, st, step, fwd[0]);
    }
  }

  lemma GatewayNames(bs: seq<Branch>, reverts: seq<Branch>, exclusive: bool)
    requires forall b :: b in reverts ==> b.Revert?
    ensures var step := if exclusive then Gateway([], bs + reverts) else Gateway(bs, reverts);
            StepNames(step) == BranchesNames(bs) && StepSegs(step) == BranchesSegs(bs)
  {
    BranchesNamesAppend(bs, reverts);
    RevertsNameNothing(reverts);
    BranchesAppend(EMPTY_STORE, bs, reverts, Eps());
    RevertsRunNothing(EMPTY_STORE, reverts, Eps());
  }

  lemma NoJoinReads(ctx: Context, st: State, n: Node, fwd: seq<Node>, reverts: seq<Branch>, exclusive: bool)
    requires Sound(st) && st.loc.buf == [] && forall b :: b in reverts ==> b.Revert?
    ensures var r := SplitNoJoin(ctx, st, n, fwd, reverts, exclusive); r.Done? ==> Reads(st, r.st)
    decreases Left(st.sd), 3, 0
  {
    hide Sound, Reads, Branches, Matched, AddStep, Apart, New, StepNames, StepSegs;
    if exclusive {
      var r := Branches(ctx, st, n, fwd, None, true);
      BranchesApart(ctx, st, n, fwd, None, true);
      BranchesNew(ctx, st, n, fwd, None, true);
      if r.Branched? {
        GatewayNames(r.branches, reverts, true);
        StepReadsApart(st, r.st, Gateway([], r.branches + reverts));
      }
    }
  }

  lemma WithJoinReads(ctx: Context, st: State, n: Node, fwd: seq<Node>, reverts: seq<Branch>, join: Node,
                      exclusive: bool)
    requires Sound(st) && st.loc.buf == [] && forall b :: b in reverts ==> b.Revert?
    ensures var r := SplitWithJoin(ctx, st, n, fwd, reverts, join, exclusive); r.Done? ==> Reads(st, r.st)
    decreases Left(st.sd), 3, 0
  {
    hide Sound, Reads, Branches, Matched, AddStep, Apart, New, StepNames, StepSegs, TraverseNode;
    var r := Branches(ctx, st, n, fwd, Some(join), false);
    BranchesApart(ctx, st, n, fwd, Some(join), false);
    BranchesNew(ctx, st, n, fwd, Some(join), false);
    if r.Branched? {
      GatewayNames(r.branches, reverts, exclusive);
      StepThen(ctx, st, r.st, if exclusive then Gateway([], r.branches + reverts)
          else Gateway(r.branches, reverts), join);
    }
  }

  // What one sub-traversal names is new, and what the next names is new after it.
  lemma NewJoins(sd: Store, sd': Store, a: multiset<Segment>, b: multiset<Segment>)
    requires New(sd, a) && New(sd', b) && Kept(sd, sd', None) && forall s :: s in a ==> Filled(sd', s)
    ensures New(sd, a + b)
  {
    hide Filled, StagesOf;
  }

  lemma BranchesNew(ctx: Context, st: State, n: Node, starts: seq<Node>, stop: Option<Node>, terminates: bool)
    requires Sound(st)
    ensures var r := Branches(ctx, st, n, starts, stop, terminates);
            r.Branched? ==> New(st.sd, BranchesNames(r.branches))
    decreases Left(st.sd), 2, |starts|
  {
    hide Sound, Apart, BranchSteps, Matched, SegsOf, Names, Filled;
    if starts != [] {
      var one := BranchSteps(ctx, st, starts[0], stop);
      BranchApart(ctx, st, starts[0], stop);
      BranchNew(ctx, st, starts[0], stop);
      if one.SubDone? {
        ApartSound(st, one.st);
        BranchesNew(ctx, one.st, n, starts[1..], stop, terminates);
        var rest := Branches(ctx, one.st, n, starts[1..], stop, terminates);
        if rest.Branched? {
          NamedIsRead(one.steps);
          hide New, Kept;
          NewJoins(st.sd, one.st.sd, Names(one.steps), BranchesNames(rest.branches));
          var b := Onward(Edge(n, starts[0]), one.steps, terminates);
          assert ([b] + rest.branches)[1..] == rest.branches;
        }
      }
    }
  }

  // The steps of a state that started empty, flushed or not, name only what is new.
  lemma FreshNew(sd: Store, rejoined: bool, s: State)
    requires Reads(State(sd, Fresh(rejoined)), s)
    ensures New(sd, Names(s.loc.steps)) && New(sd, Names(Flush(s).loc.steps))
  {
    hide Filled;
    FlushNames(s);
    assert NamesOf(Fresh(rejoined)) == multiset{};
    hide Names, Flush;
    assert forall x :: x in Names(s.loc.steps) ==> x in NamesOf(s.loc);
    assert forall x :: x in Names(Flush(s).loc.steps) ==> x in NamesOf(s.loc);
    assert forall x :: Names(s.loc.steps)[x] <= NamesOf(s.loc)[x];
    assert forall x :: Names(Flush(s).loc.steps)[x] <= NamesOf(Flush(s).loc)[x];
  }

  /** A branch names each segment at most once, and none that had stages when it began. */
  lemma BranchNew(ctx: Context, st: State, start: Node, stop: Option<Node>)
    requires Sound(st)
    ensures var r := BranchSteps(ctx, st, start, stop); r.SubDone? ==> New(st.sd, Names(r.steps))
    decreases Left(st.sd), 1, 0
  {
    hide Sound, Reads, TraverseNode, Matched, New, Names;
    var sub := State(st.sd, Fresh(st.loc.rejoined));
    FreshSound(st, st.loc.rejoined);
    NodeReads(ctx.(stopAt := stop), sub, start);
    var r := TraverseNode(ctx.(stopAt := stop), sub, start);
    if r.Done? {
      FreshNew(st.sd, st.loc.rejoined, r.st);
    }
  }

  lemma BodyNew(ctx: Context, st: State, n: Node)
    requires Sound(st) && n in ctx.bodies
    ensures var r := RunBody(ctx, st, n); r.SubDone? ==> New(st.sd, Names(r.steps))
    decreases Left(st.sd), 3, 0
  {
    hide Sound, Reads, RunProcess, Matched, New, Names;
    var bctx := Context(Body(ctx.p, ctx.bodies, n), map[], None, false);
    var sub := State(st.sd, Fresh(false));
    FreshSound(st, false);
    RunReads(bctx, sub);
    var r := RunProcess(bctx, sub);
    if r.Done? {
      FreshNew(st.sd, false, r.st);
    }
  }

  lemma RunReads(ctx: Context, st: State)
    requires Sound(st)
    ensures var r := RunProcess(ctx, st); r.Done? ==> Reads(st, r.st)
    decreases Left(st.sd), 2, 0
  {
    hide Sound, Goes, Reads, TraverseFirst, BoundaryPaths, Matched, Apart;
    GoesSelf(st);
    ReadsSelf(st);
    if ctx.p.start.Some? {
      FirstGoes(ctx, st, ctx.p.start.value);
      FirstReads(ctx, st, ctx.p.start.value);
    }
    var r := if ctx.p.start.None? then Done(st) else TraverseFirst(ctx, st, ctx.p.start.value);
    if r.Done? {
      GoesSound(st, r.st);
      BoundaryApart(ctx, r.st, ctx.p.boundaries);
      var b := BoundaryPaths(ctx, r.st, ctx.p.boundaries);
      if b.Done? {
        ApartNames(r.st, b.st);
        ReadsTrans(st, r.st, b.st);
      }
    }
  }

  lemma ApartNames(st: State, s: State)
    requires Apart(st, s)
    ensures Reads(st, s)
  {
    hide Sound, Kept, Reads;
    SameNames(st, s);
  }

  lemma SubProcessReads(ctx: Context, st: State, n: Node)
    requires Sound(st)
    ensures var r := CompileSubProcess(ctx, st, n); r.Done? ==> Reads(st, r.st)
    decreases Left(st.sd), 4, 0
  {
    hide Sound, Apart, Reads, RunBody, TraverseFirst, Matched, AllFilled, FirstDepartment, New, Names, MarkNodeSegment;
    if n in ctx.bodies {
      var b := RunBody(ctx, st, n);
      RunBodyApart(ctx, st, n);
      BodyNew(ctx, st, n);
      if b.SubDone? {
        var seg := FirstDepartment(b.steps);
        var marked := State(MarkNodeSegment(b.st.sd, n, seg), b.st.loc);
        FirstRead(b.steps);
        BodyMarked(st, b.st, n, seg, SegsOf(b.steps));
        MarkCounts(b.st.sd, n, seg);
        FlushedStep(ctx, st, marked, SubWorkflow(n, b.steps), n);
      }
    }
  }

  lemma MarkCounts(sd: Store, n: Node, seg: Option<Segment>)
    ensures MarkNodeSegment(sd, n, seg).nodes == sd.nodes
  {
  }

  // A new step after a flush, and on along the first forward flow.
  lemma FlushedStep(ctx: Context, st: State, s: State, step: Step, n: Node)
    requires Sound(st) && Apart(st, s) && New(st.sd, StepNames(step)) && AllFilled(s.sd, StepSegs(step))
    requires s.sd.nodes >= st.sd.nodes
    ensures var r := TraverseFirst(ctx, AddStep(Flush(s), step), n); r.Done? ==> Reads(st, r.st)
    decreases Left(s.sd), 3, 0
  {
    hide Sound, Goes, Reads, TraverseFirst, Matched, StepSegs, AllFilled, New, StepNames;
    ApartSound(st, s);
    FlushedApart(st, s);
    StepAfterBranches(Flush(st), Flush(s), step);
    StepReadsApart(Flush(st), Flush(s), step);
    FlushGoes(st);
    FlushReads(st);
    ReadsTrans(st, Flush(st), AddStep(Flush(s), step));
    GoesTrans(st, Flush(st), AddStep(Flush(s), step));
    ThenFirst(ctx, st, AddStep(Flush(s), step), n);
  }

  lemma FlushedApart(st: State, s: State)
    requires Sound(st) && Apart(st, s)
    ensures Apart(Flush(st), Flush(s)) && Flush(st).loc.buf == [] && Flush(s).sd == s.sd && Flush(st).sd == st.sd
    ensures Sound(Flush(st))
  {
    hide StoreOk, Kept;
    FlushGoes(s);
    FlushGoes(st);
    hide Sound, Goes;
    GoesSound(s, Flush(s));
    GoesSound(st, Flush(st));
  }

  lemma CallReads(ctx: Context, st: State, n: Node)
    requires Sound(st)
    ensures var r := CompileCall(ctx, st, n); r.Done? ==> Reads(st, r.st)
    decreases Left(st.sd), 4, 0
  {
    hide Sound, Apart, Reads, TraverseFirst, Matched, ReserveLanes, Filled;
    if n !in ctx.p.failing {
      var lanes := if n in ctx.p.reserved then ctx.p.reserved[n] else [];
      ReserveKeepsNodes(st.sd, lanes);
      ReservedApart(st, lanes);
      FlushedStep(ctx, st, State(ReserveLanes(st.sd, lanes), st.loc), CallPlan(n), n);
    }
  }

  // ----- the results -----

  /**
   * The steps kept for a boundary event name each segment at most once, and none
   * that had stages before: so none of the main flow's.
   */
  lemma PathNew(ctx: Context, st: State, be: Node)
    requires Sound(st)
    requires BoundaryTask(ctx.p, be).Some? && BoundaryTask(ctx.p, be).value !in st.sd.nodeSegment
    ensures var target := FirstTarget(ctx.p, be).value;
            var t := TraverseNode(Context(ctx.p, ctx.bodies, None, true), State(st.sd, Fresh(false)), target);
            t.Done? && !t.st.loc.rejoined ==>
              var r := BoundaryPath(ctx, st, be).st;
              && be in r.sd.boundarySteps && New(st.sd, Names(r.sd.boundarySteps[be]))
              && forall s :: s in Names(r.sd.boundarySteps[be]) ==> s !in Names(r.loc.steps)
  {
    hide Sound, Reads, TraverseNode, Matched, New, Names, TaskAhead, Flush;
    var path := Context(ctx.p, ctx.bodies, None, true);
    var sub := State(st.sd, Fresh(false));
    var target := FirstTarget(ctx.p, be).value;
    FreshSound(st, false);
    NodeReads(path, sub, target);
    var t := TraverseNode(path, sub, target);
    if t.Done? && !t.st.loc.rejoined {
      FreshNew(st.sd, false, t.st);
      assert BoundaryPath(ctx, st, be) == Done(State(RecordPath(t.st, be), st.loc));
      NamedFilled(st);
      ApartNewNames(st, Names(Flush(t.st).loc.steps));
    }
  }

  lemma ApartNewNames(st: State, m: multiset<Segment>)
    requires New(st.sd, m) && forall s :: s in NamesOf(st.loc) ==> Filled(st.sd, s)
    ensures forall s :: s in m ==> s !in Names(st.loc.steps)
  {
    hide Filled, Names;
  }

  /** A whole plan's steps, at every nesting of branches and bodies, name each segment at most once. */
  lemma PlanReadsOnce(p: Process, bodies: Bodies, implicit: Option<Node>)
    ensures var r := CompilePlan(p, bodies, implicit); r.Done? ==> Once(Names(r.st.loc.steps))
  {
    hide Sound, Goes, Apart, Reads, TraverseNode, RunProcess, BoundaryPaths, Matched, Keeps;
    var ctx := Context(p, bodies, None, false);
    var st := State(EMPTY_STORE, Fresh(false));
    EmptySound();
    var r := CompilePlan(p, bodies, implicit);
    if p.start.Some? {
      RunReads(ctx, st);
      if r.Done? {
        FreshNew(EMPTY_STORE, false, r.st);
      }
    } else if implicit.Some? {
      NodeGoes(ctx, st, implicit.value);
      NodeReads(ctx, st, implicit.value);
      var t := TraverseNode(ctx, st, implicit.value);
      if t.Done? {
        GoesSound(st, t.st);
        BoundaryApart(ctx, t.st, p.boundaries);
        if r.Done? {
          ApartNames(t.st, r.st);
          ReadsTrans(st, t.st, r.st);
          FreshNew(EMPTY_STORE, false, r.st);
        }
      }
    }
  }
}

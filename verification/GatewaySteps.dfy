/**
 * The step a gateway emits: one branch for each of its flows, none lost and
 * none twice, the flows back as reverts.
 */
module GatewaySteps {
  import opened Wrappers
  import opened Graphs
  import opened Bpmn
  import opened Languages
  import opened Plans
  import opened Traversal
  import opened Segments

  // The flows from n to each of ms, in order.
  function FlowsTo(n: Node, ms: seq<Node>): (flows: seq<Edge>)
    ensures |flows| == |ms| && forall i :: 0 <= i < |ms| ==> flows[i] == Edge(n, ms[i])
  {
    if ms == [] then [] else [Edge(n, ms[0])] + FlowsTo(n, ms[1..])
  }

  // Branches that go on along these flows, ending the run or not.
  ghost predicate GoOn(bs: seq<Branch>, flows: seq<Edge>, terminates: bool) {
    |bs| == |flows| && forall i :: 0 <= i < |bs| ==>
        bs[i].Onward? && bs[i].flow == flows[i] && bs[i].terminates == terminates
  }

  // Branches that jump back along these flows.
  ghost predicate GoBack(bs: seq<Branch>, flows: seq<Edge>) {
    |bs| == |flows| && forall i :: 0 <= i < |bs| ==> bs[i] == Revert(flows[i])
  }

  /**
   * step branches from n along the flows on and the flows back: the ones on run
   * in parallel or exclude each other, the ones back are always exclusive.
   */
  ghost predicate BranchesOut(step: Step, on: seq<Edge>, back: seq<Edge>, exclusive: bool, terminates: bool) {
    && step.Gateway?
    && if exclusive then
         step.parallel == [] && |step.exclusive| == |on| + |back|
         && GoOn(step.exclusive[..|on|], on, terminates) && GoBack(step.exclusive[|on|..], back)
       else GoOn(step.parallel, on, terminates) && GoBack(step.exclusive, back)
  }

  lemma {:induction false} RevertsGoBack(n: Node, targets: seq<Node>)
    ensures GoBack(Reverts(n, targets), FlowsTo(n, targets))
  {
    if targets != [] {
      RevertsGoBack(n, targets[1..]);
    }
  }

  lemma {:induction false} BranchesGoOn(ctx: Context, st: State, n: Node, starts: seq<Node>, stop: Option<Node>,
                                        terminates: bool)
    ensures var r := Branches(ctx, st, n, starts, stop, terminates);
            r.Branched? ==> GoOn(r.branches, FlowsTo(n, starts), terminates)
    decreases |starts|
  {
    hide BranchSteps, Matched;
    if starts != [] {
      var one := BranchSteps(ctx, st, starts[0], stop);
      if one.SubDone? {
        BranchesGoOn(ctx, one.st, n, starts[1..], stop, terminates);
      }
    }
  }

  function BackTargets(p: Process, n: Node): seq<Node> {
    BackNexts(Outs(p.g.outgoing, n), n, p.back)
  }

  // Where the gateway's own step stands: after everything emitted before it.
  function Slot(st: State): nat {
    |Flush(st).loc.steps|
  }

  lemma AddedStays(st: State, step: Step, r: State)
    requires AddStep(st, step).loc.steps <= r.loc.steps
    ensures |st.loc.steps| < |r.loc.steps| && r.loc.steps[|st.loc.steps|] == step
  {
    assert AddStep(st, step).loc.steps[|st.loc.steps|] == step;
  }

  lemma TraversedStays(ctx: Context, st: State, step: Step, next: Node)
    requires Sound(st) && st.loc.buf == [] && AllFilled(st.sd, StepSegs(step))
    ensures var r := TraverseNode(ctx, AddStep(st, step), next);
            r.Done? ==> |st.loc.steps| < |r.st.loc.steps| && r.st.loc.steps[|st.loc.steps|] == step
  {
    hide Sound, StepSegs, AllFilled, TraverseNode, Matched;
    AddStepGoes(st, step);
    GoesSound(st, AddStep(st, step));
    NodeGoes(ctx, AddStep(st, step), next);
    var r := TraverseNode(ctx, AddStep(st, step), next);
    if r.Done? {
      assert AddStep(st, step).loc.steps <= r.st.loc.steps;
      AddedStays(st, step, r.st);
    }
  }

  // The branches of a split, its reverts after them or beside them.
  lemma SplitShape(bs: seq<Branch>, reverts: seq<Branch>, on: seq<Edge>, back: seq<Edge>, exclusive: bool,
                   terminates: bool)
    requires GoOn(bs, on, terminates) && GoBack(reverts, back)
    ensures var step := if exclusive then Gateway([], bs + reverts) else Gateway(bs, reverts);
            BranchesOut(step, on, back, exclusive, terminates)
  {
    assert (bs + reverts)[..|on|] == bs && (bs + reverts)[|on|..] == reverts;
  }

  ghost predicate EmitsAt(r: Outcome, at: nat, on: seq<Edge>, back: seq<Edge>, exclusive: bool, terminates: bool) {
    r.Done? ==> at < |r.st.loc.steps| && BranchesOut(r.st.loc.steps[at], on, back, exclusive, terminates)
  }

  lemma SingleShape(ctx: Context, st: State, n: Node, fwd: seq<Node>, targets: seq<Node>)
    requires Sound(st) && st.loc.buf == [] && |fwd| <= 1
    ensures EmitsAt(SingleForward(ctx, st, n, fwd, Reverts(n, targets)), |st.loc.steps|,
                    FlowsTo(n, fwd), FlowsTo(n, targets), true, fwd != [] && IsEnd(ctx.p.g, fwd[0]))
  {
    hide Sound, TraverseNode, Matched, SegsOf, Reverts, IsEnd, AllFilled;
    var reverts := Reverts(n, targets);
    RevertsGoBack(n, targets);
    var bs := if fwd == [] then [] else [Onward(Edge(n, fwd[0]), [], IsEnd(ctx.p.g, fwd[0]))];
    SplitShape(bs, reverts, FlowsTo(n, fwd), FlowsTo(n, targets), true, fwd != [] && IsEnd(ctx.p.g, fwd[0]));
    if fwd == [] {
      assert bs + reverts == reverts;
    } else {
      EmptyBranch(st.sd, bs[0], reverts);
      TraversedStays(ctx, st, Gateway([], bs + reverts), fwd[0]);
    }
  }

  lemma EmptyBranch(sd: Store, b: Branch, reverts: seq<Branch>)
    requires b.Onward? && b.steps == [] && forall r :: r in reverts ==> r.Revert?
    ensures AllFilled(sd, StepSegs(Gateway([], [b] + reverts)))
  {
    BranchesAppend(sd, [b], reverts, Eps());
    RevertsRunNothing(sd, reverts, Eps());
    assert [b][1..] == [] && BranchSegs(b) == SegsOf([]);
    assert BranchesSegs([b]) == {};
  }

  lemma NoJoinShape(ctx: Context, st: State, n: Node, fwd: seq<Node>, targets: seq<Node>, exclusive: bool)
    ensures EmitsAt(SplitNoJoin(ctx, st, n, fwd, Reverts(n, targets), exclusive), |st.loc.steps|,
                    FlowsTo(n, fwd), FlowsTo(n, targets), true, true)
  {
    hide Branches, Matched, Reverts;
    var reverts := Reverts(n, targets);
    RevertsGoBack(n, targets);
    BranchesGoOn(ctx, st, n, fwd, None, true);
    BranchesAddNothing(ctx, st, n, fwd, None, true);
    var r := Branches(ctx, st, n, fwd, None, true);
    if exclusive && r.Branched? {
      SplitShape(r.branches, reverts, FlowsTo(n, fwd), FlowsTo(n, targets), true, true);
    }
  }

  // Branches are emitted by states of their own.
  lemma {:induction false} BranchesAddNothing(ctx: Context, st: State, n: Node, starts: seq<Node>,
                                              stop: Option<Node>, terminates: bool)
    ensures var r := Branches(ctx, st, n, starts, stop, terminates); r.Branched? ==> r.st.loc.steps == st.loc.steps
    decreases |starts|
  {
    hide TraverseNode, Matched;
    if starts != [] {
      var one := BranchSteps(ctx, st, starts[0], stop);
      if one.SubDone? {
        BranchesAddNothing(ctx, one.st, n, starts[1..], stop, terminates);
      }
    }
  }

  lemma WithJoinShape(ctx: Context, st: State, n: Node, fwd: seq<Node>, targets: seq<Node>, join: Node, exclusive: bool)
    requires Sound(st) && st.loc.buf == []
    ensures EmitsAt(SplitWithJoin(ctx, st, n, fwd, Reverts(n, targets), join, exclusive), |st.loc.steps|,
                    FlowsTo(n, fwd), FlowsTo(n, targets), exclusive, false)
  {
    hide Branches, Matched, Reverts, TraverseNode, Sound, Apart, AllFilled;
    var reverts := Reverts(n, targets);
    RevertsGoBack(n, targets);
    BranchesGoOn(ctx, st, n, fwd, Some(join), false);
    BranchesAddNothing(ctx, st, n, fwd, Some(join), false);
    BranchesApart(ctx, st, n, fwd, Some(join), false);
    var r := Branches(ctx, st, n, fwd, Some(join), false);
    if r.Branched? {
      var step := if exclusive then Gateway([], r.branches + reverts) else Gateway(r.branches, reverts);
      SplitShape(r.branches, reverts, FlowsTo(n, fwd), FlowsTo(n, targets), exclusive, false);
      RevertsRunNothing(st.sd, reverts, Eps());
      BranchesAppend(st.sd, r.branches, reverts, Eps());
      assert StepSegs(step) == BranchesSegs(r.branches);
      StepAfterBranches(st, r.st, step);
      TraversedStays(ctx, r.st, step, join);
    }
  }

  /**
   * A gateway that splits, or that sends a flow back, emits one step: a branch
   * for each forward flow in document order, a revert for each flow back. Only
   * branches that never meet again end the run.
   */
  lemma GatewayBranches(ctx: Context, st: State, n: Node, exclusive: bool)
    requires Sound(st) && (|Nexts(ctx.p, n)| >= 2 || BackTargets(ctx.p, n) != [])
    ensures var fwd := Nexts(ctx.p, n);
            var join := JoinAt(ctx.p.g.outgoing, ctx.p.back, n);
            EmitsAt(HandleGateway(ctx, st, n, exclusive), Slot(st), FlowsTo(n, fwd), FlowsTo(n, BackTargets(ctx.p, n)),
                    exclusive || |fwd| <= 1 || join.None?,
                    if |fwd| <= 1 then fwd != [] && IsEnd(ctx.p.g, fwd[0]) else join.None?)
  {
    hide Matched, Reverts, SingleForward, SplitNoJoin, SplitWithJoin, TraverseFirst, JoinAt, EmitsAt, Nexts,
         BackNexts, Sound, IsEnd, FlowsTo;
    FlushGoes(st);
    GoesSound(st, Flush(st));
    var fwd, targets := Nexts(ctx.p, n), BackTargets(ctx.p, n);
    assert RevertsOf(ctx.p, n) == Reverts(n, targets);
    if |fwd| <= 1 {
      SingleShape(ctx, Flush(st), n, fwd, targets);
    } else if JoinAt(ctx.p.g.outgoing, ctx.p.back, n).None? {
      NoJoinShape(ctx, Flush(st), n, fwd, targets, exclusive);
    } else {
      WithJoinShape(ctx, Flush(st), n, fwd, targets, JoinAt(ctx.p.g.outgoing, ctx.p.back, n).value, exclusive);
    }
  }

  /** Forward flows and flows back are all the flows: none is lost and none counted twice. */
  lemma {:induction false} FlowsConserved(n: Node, outs: seq<Node>, back: set<Edge>)
    ensures multiset(outs) == multiset(Keep(n, outs, back)) + multiset(BackNexts(outs, n, back))
  {
    if outs != [] {
      var rest := outs[1..];
      FlowsConserved(n, rest, back);
      assert outs == [outs[0]] + rest;
      if Edge(n, outs[0]) in back {
        assert Keep(n, outs, back) == Keep(n, rest, back);
        assert BackNexts(outs, n, back) == [outs[0]] + BackNexts(rest, n, back);
      } else {
        assert Keep(n, outs, back) == [outs[0]] + Keep(n, rest, back);
        assert BackNexts(outs, n, back) == BackNexts(rest, n, back);
      }
    }
  }
}

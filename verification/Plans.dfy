/**
 * The compiled plan: execution steps that name department segments, the
 * department store they read their stages from, and what a plan runs.
 */
module Plans {
  import opened Graphs
  import opened Languages

  // A lane name; only equality matters.
  datatype Lane = Lane(id: nat)

  // The n-th stretch of a lane; SegmentNames shows the rendered keys keep these apart.
  datatype Segment = Segment(lane: Lane, n: nat)

  datatype Department = Department(id: Segment, stages: Word)

  datatype Step =
    | Sequential(departments: seq<Segment>)
    | Gateway(parallel: seq<Branch>, exclusive: seq<Branch>)
    | SubWorkflow(node: Node, steps: seq<Step>)
    | CallPlan(node: Node)

  // A branch carries the condition of the flow it was compiled from.
  datatype Branch =
    | Onward(flow: Edge, steps: seq<Step>, terminates: bool)
    | Revert(flow: Edge)

  // The store all states of one compilation share.
  datatype Store = Store(
    depts: seq<Department>,
    index: map<Segment, nat>,
    segments: map<Lane, nat>,
    nodeSegment: map<Node, Segment>,
    visited: set<Node>,
    boundarySteps: map<Node, seq<Step>>,
    stages: nat,
    nodes: nat)

  const EMPTY_STORE := Store([], map[], map[], map[], {}, map[], 0, 0)

  function StagesOf(sd: Store, s: Segment): Word {
    if s in sd.index && sd.index[s] < |sd.depts| then sd.depts[sd.index[s]].stages else []
  }

  // ----- what steps run -----

  // The stages of a sequential step's departments, in the order the step names them.
  ghost function StagesIn(sd: Store, segs: seq<Segment>): Word {
    if segs == [] then [] else StagesIn(sd, segs[..|segs|-1]) + StagesOf(sd, segs[|segs|-1])
  }

  /**
   * The words steps run when K is what runs after them. A gateway step reads
   * one onward branch; a branch that terminates ends the run, so nothing of K
   * follows it; a revert branch is a jump back and adds no word of its own.
   */
  ghost function StepsLang(sd: Store, steps: seq<Step>, K: Lang): Lang
    decreases steps
  {
    if steps == [] then K else StepLang(sd, steps[0], StepsLang(sd, steps[1..], K))
  }

  ghost function StepLang(sd: Store, step: Step, K: Lang): Lang
    decreases step
  {
    match step
    case Sequential(segs) => Cat(Just(StagesIn(sd, segs)), K)
    case Gateway(parallel, exclusive) => BranchesLang(sd, parallel, K) + BranchesLang(sd, exclusive, K)
    case SubWorkflow(_, steps) => Cat(StepsLang(sd, steps, Eps()), K)
    case CallPlan(n) => Cat(Just([Called(n)]), K)
  }

  ghost function BranchesLang(sd: Store, branches: seq<Branch>, K: Lang): Lang
    decreases branches
  {
    if branches == [] then iset{}
    else BranchLang(sd, branches[0], K) + BranchesLang(sd, branches[1..], K)
  }

  ghost function BranchLang(sd: Store, b: Branch, K: Lang): Lang
    decreases b
  {
    match b
    case Onward(_, steps, terminates) => StepsLang(sd, steps, if terminates then Eps() else K)
    case Revert(_) => iset{}
  }

  // ----- the segments steps read -----

  ghost function SegsOf(steps: seq<Step>): set<Segment>
    decreases steps
  {
    if steps == [] then {} else StepSegs(steps[0]) + SegsOf(steps[1..])
  }

  ghost function StepSegs(step: Step): set<Segment>
    decreases step
  {
    match step
    case Sequential(segs) => set s | s in segs
    case Gateway(parallel, exclusive) => BranchesSegs(parallel) + BranchesSegs(exclusive)
    case SubWorkflow(_, steps) => SegsOf(steps)
    case CallPlan(_) => {}
  }

  ghost function BranchesSegs(branches: seq<Branch>): set<Segment>
    decreases branches
  {
    if branches == [] then {} else BranchSegs(branches[0]) + BranchesSegs(branches[1..])
  }

  ghost function BranchSegs(b: Branch): set<Segment>
    decreases b
  {
    if b.Onward? then SegsOf(b.steps) else {}
  }

  // ----- laws -----

  lemma {:induction false} StepsLangAppend(sd: Store, a: seq<Step>, b: seq<Step>, K: Lang)
    ensures StepsLang(sd, a + b, K) == StepsLang(sd, a, StepsLang(sd, b, K))
  {
    if a == [] {
      assert a + b == b;
    } else {
      StepsLangAppend(sd, a[1..], b, K);
      assert (a + b)[1..] == a[1..] + b;
    }
  }

  lemma StepsLangOne(sd: Store, step: Step, K: Lang)
    ensures StepsLang(sd, [step], K) == StepLang(sd, step, K)
  {
    assert StepsLang(sd, [step][1..], K) == K;
  }

  lemma {:induction false} SegsAppend(a: seq<Step>, b: seq<Step>)
    ensures SegsOf(a + b) == SegsOf(a) + SegsOf(b)
  {
    if a == [] {
      assert a + b == b;
    } else {
      SegsAppend(a[1..], b);
      assert (a + b)[1..] == a[1..] + b;
    }
  }

  lemma SegsOne(step: Step)
    ensures SegsOf([step]) == StepSegs(step)
  {
    assert SegsOf([step][1..]) == {};
  }

  // Two stores hold the same stages for every segment of S.
  ghost predicate SameStages(sd: Store, sd': Store, S: set<Segment>) {
    forall s :: s in S ==> StagesOf(sd, s) == StagesOf(sd', s)
  }

  lemma {:induction false} SameStagesIn(sd: Store, sd': Store, segs: seq<Segment>)
    requires forall s :: s in segs ==> StagesOf(sd, s) == StagesOf(sd', s)
    ensures StagesIn(sd, segs) == StagesIn(sd', segs)
  {
    if segs != [] {
      SameStagesIn(sd, sd', segs[..|segs|-1]);
      assert segs[|segs|-1] in segs;
    }
  }

  lemma {:induction false} SameLang(sd: Store, sd': Store, steps: seq<Step>, K: Lang)
    requires SameStages(sd, sd', SegsOf(steps))
    ensures StepsLang(sd, steps, K) == StepsLang(sd', steps, K)
    decreases steps
  {
    if steps != [] {
      SameLang(sd, sd', steps[1..], K);
      SameStepLang(sd, sd', steps[0], StepsLang(sd, steps[1..], K));
    }
  }

  lemma {:induction false} SameStepLang(sd: Store, sd': Store, step: Step, K: Lang)
    requires SameStages(sd, sd', StepSegs(step))
    ensures StepLang(sd, step, K) == StepLang(sd', step, K)
    decreases step
  {
    match step
    case Sequential(segs) =>
      SameStagesIn(sd, sd', segs);
    case Gateway(parallel, exclusive) =>
      SameBranchesLang(sd, sd', parallel, K);
      SameBranchesLang(sd, sd', exclusive, K);
    case SubWorkflow(_, steps) =>
      SameLang(sd, sd', steps, Eps());
    case CallPlan(_) =>
  }

  lemma {:induction false} SameBranchesLang(sd: Store, sd': Store, branches: seq<Branch>, K: Lang)
    requires SameStages(sd, sd', BranchesSegs(branches))
    ensures BranchesLang(sd, branches, K) == BranchesLang(sd', branches, K)
    decreases branches
  {
    if branches != [] {
      SameBranchesLang(sd, sd', branches[1..], K);
      match branches[0]
      case Onward(_, steps, terminates) =>
        assert BranchSegs(branches[0]) == SegsOf(steps);
        SameLang(sd, sd', steps, if terminates then Eps() else K);
      case Revert(_) =>
    }
  }

  lemma {:induction false} BranchesAppend(sd: Store, a: seq<Branch>, b: seq<Branch>, K: Lang)
    ensures BranchesLang(sd, a + b, K) == BranchesLang(sd, a, K) + BranchesLang(sd, b, K)
    ensures BranchesSegs(a + b) == BranchesSegs(a) + BranchesSegs(b)
  {
    if a == [] {
      assert a + b == b;
    } else {
      BranchesAppend(sd, a[1..], b, K);
      assert (a + b)[1..] == a[1..] + b;
    }
  }

  lemma {:induction false} RevertsRunNothing(sd: Store, reverts: seq<Branch>, K: Lang)
    requires forall b :: b in reverts ==> b.Revert?
    ensures BranchesLang(sd, reverts, K) == iset{}
    ensures BranchesSegs(reverts) == {}
  {
    if reverts != [] {
      assert reverts[0] in reverts;
      RevertsRunNothing(sd, reverts[1..], K);
    }
  }
}

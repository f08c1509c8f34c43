/**
 * Where a plan stops short of its graph: nodes whose handlers return at once,
 * and exactly when a state that enters one loses work there.
 */
module EarlyEnds {
  import opened Wrappers
  import opened Graphs
  import opened Languages
  import opened Plans
  import opened Traversal
  import opened Segments
  import opened PathLanguage
  import opened PlanMeaning

  // ----- what lies ahead -----

  // n is a task, a call, or a sub-process with something of that on its way.
  ghost predicate Works(p: Process, bodies: Bodies, n: Node)
    decreases |bodies|, 0
  {
    && n !in p.skipped && n in p.g.kind
    && match p.g.kind[n]
       case UserTask => true
       case SendTask => true
       case ReceiveTask => true
       case CallActivity => true
       case SubProcess => n in bodies && BodyWorks(Body(p, bodies, n))
       case _ => false
  }

  ghost predicate BodyWorks(q: Process)
    decreases 0, 3
  {
    q.start.Some? && Nexts(q, q.start.value) != [] && WorkAhead(q, map[], Nexts(q, q.start.value)[0], None)
  }

  // path leads forward from n, short of the stop node, to a node that works.
  ghost predicate LeadsToWork(p: Process, bodies: Bodies, n: Node, stop: Option<Node>, path: seq<Node>)
    decreases |bodies|, 1
  {
    Path(ForwardGraph(p), path) && path[0] == n && (stop.Some? ==> stop.value !in path)
        && Works(p, bodies, path[|path|-1])
  }

  /** A task, a call or a working sub-process is forward-reachable from n without passing the stop node. */
  ghost predicate WorkAhead(p: Process, bodies: Bodies, n: Node, stop: Option<Node>)
    decreases |bodies|, 2
  {
    exists path :: LeadsToWork(p, bodies, n, stop, path)
  }

  lemma WorkHere(p: Process, bodies: Bodies, n: Node, stop: Option<Node>)
    requires stop != Some(n) && Works(p, bodies, n)
    ensures WorkAhead(p, bodies, n, stop)
  {
    hide Works;
    assert Path(ForwardGraph(p), [n]);
    assert LeadsToWork(p, bodies, n, stop, [n]);
  }

  lemma WorkNext(p: Process, bodies: Bodies, n: Node, stop: Option<Node>, m: Node)
    requires stop != Some(n) && m in Nexts(p, n) && WorkAhead(p, bodies, m, stop)
    ensures WorkAhead(p, bodies, n, stop)
  {
    hide Works, Nexts, ForwardGraph;
    NextsAreEdges(p, n);
    var path :| LeadsToWork(p, bodies, m, stop, path);
    assert HasEdge(ForwardGraph(p), n, m);
    assert ([n] + path)[1..] == path;
    assert LeadsToWork(p, bodies, n, stop, [n] + path);
  }

  lemma WorkSomewhere(p: Process, bodies: Bodies, n: Node, stop: Option<Node>)
    requires WorkAhead(p, bodies, n, stop) && !Works(p, bodies, n)
    ensures stop != Some(n) && exists m :: m in Nexts(p, n) && WorkAhead(p, bodies, m, stop)
  {
    hide Works, Nexts, ForwardGraph;
    NextsAreEdges(p, n);
    var path :| LeadsToWork(p, bodies, n, stop, path);
    assert |path| > 1;
    assert HasEdge(ForwardGraph(p), n, path[1]);
    assert LeadsToWork(p, bodies, path[1], stop, path[1..]);
  }

  lemma NoWorkAtStop(p: Process, bodies: Bodies, n: Node)
    ensures !WorkAhead(p, bodies, n, Some(n))
  {
    hide Works;
    forall path
      ensures !LeadsToWork(p, bodies, n, Some(n), path)
    {
      assert Path(ForwardGraph(p), path) ==> path[0] in path;
    }
  }

  // ----- languages without work -----

  lemma CatIsEps(A: Lang, B: Lang)
    requires A != iset{} && B != iset{}
    ensures Cat(A, B) != iset{}
    ensures Cat(A, B) == Eps() <==> A == Eps() && B == Eps()
  {
    hide Cat;
    var u :| u in A;
    var v :| v in B;
    InCat(A, B, u, v);
    if A == Eps() && B == Eps() {
      CatEpsLeft(B);
    }
    if Cat(A, B) == Eps() {
      forall w | w in A
        ensures w == []
      {
        InCat(A, B, w, v);
      }
      forall w | w in B
        ensures w == []
      {
        InCat(A, B, u, w);
      }
      OnlyEps(A);
      OnlyEps(B);
    }
  }

  lemma OnlyEps(A: Lang)
    requires A != iset{} && forall w :: w in A ==> w == []
    ensures A == Eps()
  {
    var w :| w in A;
  }

  // The forward flows of every body from its start drop in some rank.
  ghost predicate BodiesRanked(bodies: Bodies) {
    forall n :: n in bodies ==> RankedFromStart(bodies[n])
  }

  ghost predicate RankedFromStart(q: Process) {
    q.start.Some? && Nexts(q, q.start.value) != [] ==>
      exists rank :: Ranked(ForwardGraph(q), rank) && Nexts(q, q.start.value)[0] in rank
  }

  lemma {:induction false} BodyEps(p: Process, bodies: Bodies, n: Node)
    requires n in bodies && BodiesRanked(bodies)
    ensures BodyLang(p, bodies, n) != iset{}
    ensures BodyLang(p, bodies, n) == Eps() <==> !BodyWorks(Body(p, bodies, n))
    decreases |bodies|, 0
  {
    hide PathLang, WorkAhead, Ranked, Nexts;
    var q := Body(p, bodies, n);
    assert RankedFromStart(bodies[n]);
    assert ForwardGraph(q) == ForwardGraph(bodies[n]) && q.start == bodies[n].start;
    assert forall m :: Nexts(q, m) == Nexts(bodies[n], m) by { SameNexts(bodies[n], q.defaultLane); }
    if q.start.Some? && Nexts(q, q.start.value) != [] {
      var rank :| Ranked(ForwardGraph(q), rank) && Nexts(q, q.start.value)[0] in rank;
      assert |bodies| > 0;
      PathEps(q, map[], rank, Nexts(q, q.start.value)[0], None);
    }
  }

  lemma SameNexts(q: Process, lane: Lane)
    ensures forall m :: Nexts(q.(defaultLane := lane), m) == Nexts(q, m)
  {
  }

  lemma {:induction false} NodeEps(p: Process, bodies: Bodies, n: Node)
    requires BodiesRanked(bodies)
    ensures NodeLang(p, bodies, n) != iset{}
    ensures NodeLang(p, bodies, n) == Eps() <==> !Works(p, bodies, n)
    decreases |bodies|, 1
  {
    hide BodyLang, BodyWorks, Body, BodiesRanked;
    assert [Task(n)] in Just([Task(n)]) && [Task(n)] !in Eps();
    assert [Called(n)] in Just([Called(n)]) && [Called(n)] !in Eps();
    assert [] in Eps();
    if n in bodies {
      BodyEps(p, bodies, n);
    }
  }

  /** The paths from n spell nothing but the empty word if and only if no work is ahead of it. */
  lemma {:induction false} PathEps(p: Process, bodies: Bodies, rank: map<Node, nat>, n: Node, stop: Option<Node>)
    requires Ranked(ForwardGraph(p), rank) && n in rank && (stop.Some? ==> OnEveryPath(p, stop.value, n))
             && BodiesRanked(bodies)
    ensures PathLang(p, bodies, n, stop) != iset{}
    ensures PathLang(p, bodies, n, stop) == Eps() <==> !WorkAhead(p, bodies, n, stop)
    decreases |bodies|, 2, rank[n], 1
  {
    hide PathLang, WorkAhead, Works, NodeLang, Nexts, Ranked, OnEveryPath, BodiesRanked, Cat, ForwardGraph;
    if stop == Some(n) {
      AtStop(p, bodies, n);
      NoWorkAtStop(p, bodies, n);
      assert [] in Eps();
    } else {
      NodeEps(p, bodies, n);
      if Works(p, bodies, n) {
        WorkHere(p, bodies, n, stop);
      }
      if stop.Some? {
        OnEveryNext(p, stop.value, n);
      }
      if Nexts(p, n) == [] {
        AtSink(p, bodies, n);
        if WorkAhead(p, bodies, n, stop) && !Works(p, bodies, n) {
          WorkSomewhere(p, bodies, n, stop);
        }
      } else {
        Onwards(p, bodies, n, stop);
        NextsRanked(p, rank, n);
        NextsEps(p, bodies, rank, Nexts(p, n), rank[n], stop);
        CatIsEps(NodeLang(p, bodies, n), NextsLang(p, bodies, Nexts(p, n), stop));
        if m :| m in Nexts(p, n) && WorkAhead(p, bodies, m, stop) {
          WorkNext(p, bodies, n, stop, m);
        } else if WorkAhead(p, bodies, n, stop) && !Works(p, bodies, n) {
          WorkSomewhere(p, bodies, n, stop);
        }
      }
    }
  }

  lemma {:induction false} NextsEps(p: Process, bodies: Bodies, rank: map<Node, nat>, ms: seq<Node>, bound: nat,
                                    stop: Option<Node>)
    requires Ranked(ForwardGraph(p), rank) && BodiesRanked(bodies) && ms != []
    requires forall m :: m in ms ==> m in rank && rank[m] < bound && (stop.Some? ==> OnEveryPath(p, stop.value, m))
    ensures NextsLang(p, bodies, ms, stop) != iset{}
    ensures NextsLang(p, bodies, ms, stop) == Eps() <==> forall m :: m in ms ==> !WorkAhead(p, bodies, m, stop)
    decreases |bodies|, 2, bound, 0, |ms|
  {
    hide PathLang, WorkAhead, Ranked, OnEveryPath, BodiesRanked, ForwardGraph;
    var A := PathLang(p, bodies, ms[0], stop);
    PathEps(p, bodies, rank, ms[0], stop);
    assert forall m :: m in ms <==> m == ms[0] || m in ms[1..];
    if ms[1..] == [] {
      assert NextsLang(p, bodies, ms, stop) == A;
    } else {
      NextsEps(p, bodies, rank, ms[1..], bound, stop);
      UnionIsEps(A, NextsLang(p, bodies, ms[1..], stop));
    }
  }

  lemma UnionIsEps(A: Lang, B: Lang)
    requires A != iset{} && B != iset{}
    ensures A + B != iset{}
    ensures A + B == Eps() <==> A == Eps() && B == Eps()
  {
    var u :| u in A;
    var v :| v in B;
    assert u in A + B;
    if A + B == Eps() {
      assert forall w :: w in A ==> w in A + B;
      assert forall w :: w in B ==> w in A + B;
      OnlyEps(A);
      OnlyEps(B);
    }
  }

  // ----- what steps do with what follows them -----

  // The words of runs that get to the end of the steps.
  ghost function Thru(sd: Store, steps: seq<Step>): Lang
    decreases steps
  {
    if steps == [] then Eps() else Cat(StepThru(sd, steps[0]), Thru(sd, steps[1..]))
  }

  ghost function StepThru(sd: Store, step: Step): Lang
    decreases step
  {
    match step
    case Sequential(segs) => Just(StagesIn(sd, segs))
    case Gateway(parallel, exclusive) => BranchesThru(sd, parallel) + BranchesThru(sd, exclusive)
    case SubWorkflow(_, steps) => StepsLang(sd, steps, Eps())
    case CallPlan(n) => Just([Called(n)])
  }

  ghost function BranchesThru(sd: Store, bs: seq<Branch>): Lang
    decreases bs
  {
    if bs == [] then iset{} else BranchThru(sd, bs[0]) + BranchesThru(sd, bs[1..])
  }

  ghost function BranchThru(sd: Store, b: Branch): Lang
    decreases b
  {
    if b.Onward? && !b.terminates then Thru(sd, b.steps) else iset{}
  }

  /** Steps run what ends inside them, and what gets through followed by the rest. */
  lemma {:induction false} StepsSplit(sd: Store, steps: seq<Step>, K: Lang)
    ensures StepsLang(sd, steps, K) == StepsLang(sd, steps, iset{}) + Cat(Thru(sd, steps), K)
    decreases steps
  {
    hide StepLang, StepThru, Cat;
    if steps == [] {
      CatEpsLeft(K);
    } else {
      var rest := steps[1..];
      StepsSplit(sd, rest, K);
      StepSplit(sd, steps[0], StepsLang(sd, rest, K));
      StepSplit(sd, steps[0], StepsLang(sd, rest, iset{}));
      Distribute(StepLang(sd, steps[0], iset{}), StepThru(sd, steps[0]),
                 StepsLang(sd, rest, iset{}), Thru(sd, rest), K);
    }
  }

  lemma Distribute(T: Lang, Q: Lang, E: Lang, R: Lang, K: Lang)
    ensures T + Cat(Q, E + Cat(R, K)) == (T + Cat(Q, E)) + Cat(Cat(Q, R), K)
  {
    CatAssoc(Q, R, K);
    CatUnionRight(Q, E, Cat(R, K));
  }

  lemma CatUnionRight(A: Lang, B: Lang, C: Lang)
    ensures Cat(A, B + C) == Cat(A, B) + Cat(A, C)
  {
    hide Cat;
    forall w
      ensures w in Cat(A, B + C) <==> w in Cat(A, B) || w in Cat(A, C)
    {
      if w in Cat(A, B + C) {
        var u, v := OutOfCat(A, B + C, w);
        if v in B {
          InCat(A, B, u, v);
        } else {
          InCat(A, C, u, v);
        }
      }
      if w in Cat(A, B) {
        var u, v := OutOfCat(A, B, w);
        InCat(A, B + C, u, v);
      }
      if w in Cat(A, C) {
        var u, v := OutOfCat(A, C, w);
        InCat(A, B + C, u, v);
      }
    }
  }

  lemma CatNothing(A: Lang)
    ensures Cat(A, iset{}) == iset{}
  {
    assert forall w, u, v :: !Splits(A, iset{}, w, u, v);
  }

  lemma {:induction false} StepSplit(sd: Store, step: Step, K: Lang)
    ensures StepLang(sd, step, K) == StepLang(sd, step, iset{}) + Cat(StepThru(sd, step), K)
    decreases step
  {
    hide BranchesLang, BranchesThru, Cat, StepsLang, Thru, StagesIn;
    match step
    case Sequential(segs) =>
      CatNothing(Just(StagesIn(sd, segs)));
    case Gateway(parallel, exclusive) =>
      BranchesSplit(sd, parallel, K);
      BranchesSplit(sd, exclusive, K);
      CatUnion(BranchesThru(sd, parallel), BranchesThru(sd, exclusive), K);
    case SubWorkflow(_, steps) =>
      CatNothing(StepsLang(sd, steps, Eps()));
    case CallPlan(n) =>
      CatNothing(Just([Called(n)]));
  }

  lemma {:induction false} BranchesSplit(sd: Store, bs: seq<Branch>, K: Lang)
    ensures BranchesLang(sd, bs, K) == BranchesLang(sd, bs, iset{}) + Cat(BranchesThru(sd, bs), K)
    decreases bs
  {
    hide Cat, StepsLang, Thru;
    if bs == [] {
      CatNone(K);
    } else {
      BranchesSplit(sd, bs[1..], K);
      CatUnion(BranchThru(sd, bs[0]), BranchesThru(sd, bs[1..]), K);
      if bs[0].Onward? && !bs[0].terminates {
        StepsSplit(sd, bs[0].steps, K);
      } else {
        CatNone(K);
      }
    }
  }

  // ----- no word is longer than some bound -----

  ghost predicate AtMost(A: Lang, k: nat) {
    forall w :: w in A ==> |w| <= k
  }

  lemma CatAtMost(A: Lang, B: Lang, a: nat, b: nat)
    requires AtMost(A, a) && AtMost(B, b)
    ensures AtMost(Cat(A, B), a + b)
  {
    hide Cat;
    forall w | w in Cat(A, B)
      ensures |w| <= a + b
    {
      var u, v := OutOfCat(A, B, w);
    }
  }

  lemma {:induction false} StepsAtMost(sd: Store, steps: seq<Step>, K: Lang, k: nat) returns (b: nat)
    requires AtMost(K, k)
    ensures AtMost(StepsLang(sd, steps, K), b)
    decreases steps
  {
    hide StepLang;
    if steps == [] {
      b := k;
    } else {
      b := StepsAtMost(sd, steps[1..], K, k);
      b := StepAtMost(sd, steps[0], StepsLang(sd, steps[1..], K), b);
    }
  }

  lemma {:induction false} StepAtMost(sd: Store, step: Step, K: Lang, k: nat) returns (b: nat)
    requires AtMost(K, k)
    ensures AtMost(StepLang(sd, step, K), b)
    decreases step
  {
    hide BranchesLang, Cat, StepsLang, StagesIn;
    match step
    case Sequential(segs) =>
      CatAtMost(Just(StagesIn(sd, segs)), K, |StagesIn(sd, segs)|, k);
      b := |StagesIn(sd, segs)| + k;
    case Gateway(parallel, exclusive) =>
      var b1 := BranchesAtMost(sd, parallel, K, k);
      var b2 := BranchesAtMost(sd, exclusive, K, k);
      b := b1 + b2;
    case SubWorkflow(_, steps) =>
      var b1 := StepsAtMost(sd, steps, Eps(), 0);
      CatAtMost(StepsLang(sd, steps, Eps()), K, b1, k);
      b := b1 + k;
    case CallPlan(n) =>
      CatAtMost(Just([Called(n)]), K, 1, k);
      b := 1 + k;
  }

  lemma {:induction false} BranchesAtMost(sd: Store, bs: seq<Branch>, K: Lang, k: nat) returns (b: nat)
    requires AtMost(K, k)
    ensures AtMost(BranchesLang(sd, bs, K), b)
    decreases bs
  {
    hide StepsLang;
    if bs == [] {
      b := 0;
    } else {
      b := BranchesAtMost(sd, bs[1..], K, k);
      if bs[0].Onward? {
        var b1 := StepsAtMost(sd, bs[0].steps, if bs[0].terminates then Eps() else K, k);
        b := b + b1;
      }
    }
  }

  // From a word of A, one more v stays in A, so v is empty where A is bounded.
  lemma {:induction false} Pump(A: Lang, L: Lang, a: nat, w: Word, v: Word)
    requires AtMost(A, a) && Cat(A, L) == A && w in A && v in L
    ensures v == []
    decreases a - |w|
  {
    hide Cat;
    if v != [] {
      InCat(A, L, w, v);
      Pump(A, L, a, w + v, v);
    }
  }

  /** A bounded language is kept by what follows it if and only if nothing follows. */
  lemma FollowedBy(A: Lang, L: Lang, a: nat)
    requires AtMost(A, a) && A != iset{} && L != iset{}
    ensures Cat(A, L) == A <==> L == Eps()
  {
    hide Cat;
    CatEpsRight(A);
    if Cat(A, L) == A {
      var w :| w in A;
      forall v | v in L
        ensures v == []
      {
        Pump(A, L, a, w, v);
      }
      OnlyEps(L);
    }
  }

  // ----- a state at a node that drops -----

  /** No run of the steps ends before their end, and some run gets there. */
  ghost predicate Continues(sd: Store, steps: seq<Step>) {
    StepsLang(sd, steps, iset{}) == iset{} && StepsLang(sd, steps, Eps()) != iset{}
  }

  lemma ContinuesCat(sd: Store, steps: seq<Step>, K: Lang)
    requires Continues(sd, steps)
    ensures StepsLang(sd, steps, K) == Cat(StepsLang(sd, steps, Eps()), K)
  {
    hide StepsLang, Thru, Cat;
    StepsSplit(sd, steps, K);
    StepsSplit(sd, steps, Eps());
    CatEpsRight(Thru(sd, steps));
    assert iset{} + Thru(sd, steps) == Thru(sd, steps);
  }

  // The buffer of a sound state holds no stage only where it is empty.
  lemma BufferWorks(st: State)
    requires Sound(st)
    ensures StagesIn(st.sd, st.loc.buf) == [] <==> st.loc.buf == []
  {
    hide StoreOk, StagesOf, SegsOf, OpenLast;
    if st.loc.buf != [] {
      var s := st.loc.buf[|st.loc.buf|-1];
      assert s in BufSegs(st.loc.buf);
      assert Filled(st.sd, s);
    }
  }

  // The steps run what st has emitted and then what is spelled along the paths from n.
  ghost predicate RunsOn(ctx: Context, st: State, n: Node, sd: Store, steps: seq<Step>) {
    StepsLang(sd, steps, Eps()) == LangOf(st, PathLang(ctx.p, ctx.bodies, n, ctx.stopAt))
  }

  /**
   * With P still to run, the emitted steps are all there is to run if and only if
   * the buffer is empty and P runs nothing; with the buffer flushed, if and only if P runs nothing.
   */
  lemma StopsShort(st: State, P: Lang)
    requires Sound(st) && Continues(st.sd, st.loc.steps) && P != iset{}
    ensures StepsLang(st.sd, st.loc.steps, Eps()) == LangOf(st, P) <==> st.loc.buf == [] && P == Eps()
    ensures StepsLang(st.sd, Flush(st).loc.steps, Eps()) == LangOf(st, P) <==> P == Eps()
  {
    hide StepsLang, Cat, Continues, Sound, StagesIn;
    var u := StagesIn(st.sd, st.loc.buf);
    var A := StepsLang(st.sd, st.loc.steps, Eps());
    var B := Cat(A, Just(u));
    assert [] in Eps() && u in Just(u);
    assert A != iset{} by { SomeRun(st.sd, st.loc.steps); }
    var a := StepsAtMost(st.sd, st.loc.steps, Eps(), 0);
    CatAtMost(A, Just(u), a, |u|);
    ContinuesCat(st.sd, st.loc.steps, Cat(Just(u), P));
    CatIsEps(Just(u), P);
    FollowedBy(A, Cat(Just(u), P), a);
    BufferWorks(st);
    ContinuesCat(st.sd, st.loc.steps, Cat(Just(u), Eps()));
    CatEpsRight(Just(u));
    FlushRuns(st, Eps());
    FlushedRuns(st, Eps());
    CatAssoc(A, Just(u), P);
    SomeCat(A, Just(u));
    FollowedBy(B, P, a + |u|);
  }

  lemma SomeRun(sd: Store, steps: seq<Step>)
    requires Continues(sd, steps)
    ensures StepsLang(sd, steps, Eps()) != iset{}
  {
  }

  lemma SomeCat(A: Lang, B: Lang)
    requires A != iset{} && B != iset{}
    ensures Cat(A, B) != iset{}
  {
    CatIsEps(A, B);
  }

  lemma VisitReads(st: State, n: Node, steps: seq<Step>)
    ensures StepsLang(Visit(st, n).sd, steps, Eps()) == StepsLang(st.sd, steps, Eps())
  {
    hide StepsLang;
    SameLang(st.sd, Visit(st, n).sd, steps, Eps());
  }

  /**
   * A state that enters a node which returns at once: its steps run all of its
   * words if and only if its buffer is empty and no work is ahead, short of the
   * stop node; once the buffer is flushed, if and only if no work is ahead.
   */
  lemma DropMeans(ctx: Context, rank: map<Node, nat>, st: State, n: Node)
    requires Sound(st) && Continues(st.sd, st.loc.steps) && Drops(ctx.p, n) && BodiesRanked(ctx.bodies)
    requires Ranked(ForwardGraph(ctx.p), rank) && n in rank
             && (ctx.stopAt.Some? ==> OnEveryPath(ctx.p, ctx.stopAt.value, n))
    requires ctx.stopAt != Some(n) && TraverseNode(ctx, st, n) == Done(Visit(st, n))
    ensures var r := TraverseNode(ctx, st, n).st;
            && (RunsOn(ctx, st, n, r.sd, r.loc.steps) <==>
                r.loc.buf == [] && !WorkAhead(ctx.p, ctx.bodies, n, ctx.stopAt))
            && (RunsOn(ctx, st, n, r.sd, Flush(r).loc.steps) <==> !WorkAhead(ctx.p, ctx.bodies, n, ctx.stopAt))
  {
    hide Sound, TraverseNode, PathLang, StepsLang, Continues, WorkAhead, Ranked, OnEveryPath, BodiesRanked, LangOf;
    VisitReads(st, n, st.loc.steps);
    VisitReads(st, n, Flush(st).loc.steps);
    PathEps(ctx.p, ctx.bodies, rank, n, ctx.stopAt);
    StopsShort(st, PathLang(ctx.p, ctx.bodies, n, ctx.stopAt));
  }

  // Entered within the budgets and for the first time, such a node is visited and left.
  lemma DropEntered(ctx: Context, st: State, n: Node)
    requires Drops(ctx.p, n) && ctx.stopAt != Some(n)
    ensures var r := TraverseNode(ctx, st, n);
            r == Done(Visit(st, n)) <==>
              && n !in st.loc.visited && !(ctx.stopAtCompiled && n in st.sd.visited)
              && st.sd.stages <= STAGE_BUDGET && st.sd.nodes < NODE_BUDGET
  {
    hide Matched, Compile, Drops;
    DropReturns(ctx, Visit(st, n), n);
  }
}

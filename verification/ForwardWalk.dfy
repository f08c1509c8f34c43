/**
 * The depth-first walk over forward flows that both join searches share
 * (graph.go's immediatePostDominator and joins.go's forwardWalk): it drops the
 * flows that meet the stack and remembers which nodes such a flow taints.
 */
module ForwardWalk {
  import opened Wrappers
  import opened Graphs
  import opened Sets

  datatype Frame = Frame(node: Node, next: nat)

  datatype Trail = Bottom | Push(top: Frame, below: Trail)

  datatype Walk = Walk(onStack: set<Node>, done: set<Node>, succ: Succ, order: seq<Node>, cyclic: set<Node>)

  const FRESH := Walk({}, {}, map[], [], {})

  // The node is done; it is tainted when a kept successor is.
  function Finished(w: Walk, n: Node): Walk {
    var tainted := exists s :: s in Outs(w.succ, n) && s in w.cyclic;
    w.(done := w.done + {n}, onStack := w.onStack - {n}, order := w.order + [n],
       cyclic := if tainted then w.cyclic + {n} else w.cyclic)
  }

  function Step(G: Succ, back: set<Edge>, w: Walk, st: Trail): (Walk, Trail)
    requires st.Push?
  {
    var top := st.top;
    var outs := Outs(G, top.node);
    if top.next >= |outs| then (Finished(w, top.node), st.below)
    else
      var next := outs[top.next];
      var rest := Push(Frame(top.node, top.next + 1), st.below);
      if Edge(top.node, next) in back then (w, rest)
      else if next in w.onStack then (w.(cyclic := w.cyclic + {top.node}), rest)
      else
        var w' := w.(succ := w.succ[top.node := Outs(w.succ, top.node) + [next]]);
        if next in w.done then (w', rest)
        else (w'.(onStack := w'.onStack + {next}), Push(Frame(next, 0), rest))
  }

  // ----- termination -----

  ghost function Work(G: Succ, st: Trail): nat {
    match st
    case Bottom => 0
    case Push(f, below) =>
      var left := |Outs(G, f.node)| - f.next;
      Work(G, below) + 1 + (if left > 0 then left else 0)
  }

  function Seen(w: Walk): set<Node> { w.onStack + w.done }

  lemma StepWorks(G: Succ, back: set<Edge>, universe: set<Node>, w: Walk, st: Trail)
    requires st.Push?
    requires forall u, v {:trigger HasEdge(G, u, v)} :: HasEdge(G, u, v) ==> v in universe
    ensures var (w', st') := Step(G, back, w, st);
      |universe - Seen(w')| < |universe - Seen(w)|
      || (|universe - Seen(w')| <= |universe - Seen(w)| && Work(G, st') < Work(G, st))
  {
    var (w', st') := Step(G, back, w, st);
    var top := st.top;
    if top.next >= |Outs(G, top.node)| {
      SubsetSize(universe - Seen(w'), universe - Seen(w));
    } else {
      var next := Outs(G, top.node)[top.next];
      assert HasEdge(G, top.node, next);
      if Edge(top.node, next) !in back && next !in w.onStack && next !in w.done {
        assert Seen(w') == Seen(w) + {next};
        FewerLeft(universe, Seen(w), Seen(w'), next);
      } else {
        assert Seen(w') == Seen(w);
      }
    }
  }

  // The walk run to the end.
  ghost function Run(G: Succ, back: set<Edge>, w: Walk, st: Trail): Walk
    decreases |Targets(G) - Seen(w)|, Work(G, st)
  {
    if st.Bottom? then w
    else
      StepWorks(G, back, Targets(G), w, st);
      var (w', st') := Step(G, back, w, st);
      Run(G, back, w', st')
  }

  ghost function From(G: Succ, back: set<Edge>, w: Walk, root: Node): Walk {
    Run(G, back, w.(onStack := w.onStack + {root}), Push(Frame(root, 0), Bottom))
  }

  // ----- the invariant -----

  // pos gives each finished node its place in the finishing order.
  ghost predicate Ordered(w: Walk, pos: map<Node, nat>) {
    && pos.Keys == w.done
    && (forall i :: 0 <= i < |w.order| ==> w.order[i] in pos && pos[w.order[i]] == i)
    && (forall n :: n in pos ==> pos[n] < |w.order| && w.order[pos[n]] == n)
    && (forall u, v {:trigger HasEdge(w.succ, u, v)} :: u in pos && HasEdge(w.succ, u, v) ==>
        v in pos && pos[v] < pos[u])
  }

  // An untainted finished node kept all its forward flows, and none leads to a tainted one.
  ghost predicate Faithful(G: Succ, back: set<Edge>, w: Walk) {
    && (forall u :: u in w.done && u !in w.cyclic ==> Outs(w.succ, u) == Keep(u, Outs(G, u), back))
    && (forall u, v {:trigger HasEdge(w.succ, u, v)} ::
          u in w.done && u !in w.cyclic && HasEdge(w.succ, u, v) ==> v !in w.cyclic)
    && (forall u, v {:trigger HasEdge(G, u, v)} :: u in w.done && HasEdge(G, u, v) ==>
        Edge(u, v) in back || v in Seen(w))
    && w.cyclic <= Seen(w) && w.succ.Keys <= Seen(w) && w.onStack !! w.done
  }

  function Nodes(st: Trail): set<Node> {
    match st
    case Bottom => {}
    case Push(f, below) => Nodes(below) + {f.node}
  }

  ghost predicate FrameOk(G: Succ, back: set<Edge>, w: Walk, f: Frame, child: Option<Node>) {
    && f.next <= |Outs(G, f.node)|
    && (forall j :: 0 <= j < f.next ==> Edge(f.node, Outs(G, f.node)[j]) in back || Outs(G, f.node)[j] in Seen(w))
    && (forall s :: s in Outs(w.succ, f.node) ==> s in w.done || child == Some(s))
    && (f.node !in w.cyclic ==> Outs(w.succ, f.node) == Keep(f.node, Outs(G, f.node)[..f.next], back))
  }

  ghost predicate TrailOk(G: Succ, back: set<Edge>, w: Walk, st: Trail, child: Option<Node>) {
    match st
    case Bottom => true
    case Push(f, below) =>
      && f.node !in Nodes(below) && FrameOk(G, back, w, f, child)
      && (below.Push? ==> HasEdge(G, below.top.node, f.node) && Edge(below.top.node, f.node) !in back)
      && TrailOk(G, back, w, below, Some(f.node))
  }

  ghost predicate Walking(G: Succ, back: set<Edge>, w: Walk, st: Trail, pos: map<Node, nat>) {
    Ordered(w, pos) && Faithful(G, back, w) && w.onStack == Nodes(st) && TrailOk(G, back, w, st, None)
  }

  // Separate, because only the last step of an argument needs the cycles themselves.
  ghost predicate Tainted(G: Succ, back: set<Edge>, w: Walk) {
    forall n :: n in w.cyclic ==> ReachesCycle(Forward(G, back), n)
  }

  // ----- preservation -----

  // What happens at a node off the trail leaves the trail in order.
  lemma {:induction false} TrailKept(G: Succ, back: set<Edge>, w: Walk, w': Walk, x: Node,
                                     st: Trail, child: Option<Node>, child': Option<Node>)
    requires TrailOk(G, back, w, st, child) && x !in Nodes(st)
    requires w.done <= w'.done && Seen(w) <= Seen(w') && forall n :: n != x ==> Outs(w'.succ, n) == Outs(w.succ, n)
    requires forall n :: n != x ==> (n in w'.cyclic <==> n in w.cyclic)
    requires child == child' || child.None? || child.value in w'.done
    ensures TrailOk(G, back, w', st, child')
  {
    match st
    case Bottom =>
    case Push(f, below) =>
      TrailKept(G, back, w, w', x, below, Some(f.node), Some(f.node));
  }

  lemma Finishes(G: Succ, back: set<Edge>, w: Walk, st: Trail, pos: map<Node, nat>) returns (pos': map<Node, nat>)
    requires Walking(G, back, w, st, pos) && st.Push? && st.top.next >= |Outs(G, st.top.node)|
    ensures Walking(G, back, Finished(w, st.top.node), st.below, pos')
  {
    var n := st.top.node;
    var w' := Finished(w, n);
    pos' := pos[n := |w.order|];
    hide Ordered, Faithful, Finished;
    FinishesOrdered(G, back, w, st, pos);
    FinishesFaithful(G, back, w, st, pos);
    FinishedFields(w, n);
    TrailKept(G, back, w, w', n, st.below, Some(n), None);
  }

  lemma FinishedFields(w: Walk, n: Node)
    ensures var w' := Finished(w, n);
            && w'.done == w.done + {n} && w'.onStack == w.onStack - {n} && w'.succ == w.succ
            && w'.order == w.order + [n]
            && forall m :: m != n ==> (m in w'.cyclic <==> m in w.cyclic)
    ensures Seen(w) <= Seen(Finished(w, n))
  {
  }

  lemma FinishesOrdered(G: Succ, back: set<Edge>, w: Walk, st: Trail, pos: map<Node, nat>)
    requires Walking(G, back, w, st, pos) && st.Push? && st.top.next >= |Outs(G, st.top.node)|
    ensures Ordered(Finished(w, st.top.node), pos[st.top.node := |w.order|])
  {
    var n := st.top.node;
    var w', pos' := Finished(w, n), pos[n := |w.order|];
    assert n !in w.done && FrameOk(G, back, w, st.top, None);
    forall u, v {:trigger HasEdge(w'.succ, u, v)} | u in pos' && HasEdge(w'.succ, u, v)
      ensures v in pos' && pos'[v] < pos'[u]
    {
      assert HasEdge(w.succ, u, v);
      if u == n {
        assert v in Outs(w.succ, n);
        assert v in w.done;
        assert v in pos;
        assert v != n;
        assert pos[v] < |w.order|;
      } else {
        assert u in pos;
        assert v in pos && pos[v] < pos[u];
      }
    }
  }

  lemma FinishesFaithful(G: Succ, back: set<Edge>, w: Walk, st: Trail, pos: map<Node, nat>)
    requires Walking(G, back, w, st, pos) && st.Push? && st.top.next >= |Outs(G, st.top.node)|
    ensures Faithful(G, back, Finished(w, st.top.node))
  {
    hide Keep;
    var n := st.top.node;
    var w' := Finished(w, n);
    assert Outs(G, n)[..st.top.next] == Outs(G, n);
    forall u, v {:trigger HasEdge(w'.succ, u, v)} | u in w'.done && u !in w'.cyclic && HasEdge(w'.succ, u, v)
      ensures v !in w'.cyclic
    {
      assert HasEdge(w.succ, u, v);
      assert v in Outs(w.succ, u);
      if u == n {
        assert v !in w.cyclic && v in w.done && v != n;
      } else {
        assert u in w.done && u !in w.cyclic;
        assert v !in w.cyclic;
        assert v in w.done;
      }
    }
  }

  lemma Skips(G: Succ, back: set<Edge>, w: Walk, st: Trail, pos: map<Node, nat>)
    requires Walking(G, back, w, st, pos) && st.Push? && st.top.next < |Outs(G, st.top.node)|
    requires Edge(st.top.node, Outs(G, st.top.node)[st.top.next]) in back
    ensures Walking(G, back, w, Push(Frame(st.top.node, st.top.next + 1), st.below), pos)
  {
    var f := st.top;
    var outs := Outs(G, f.node);
    KeepSnoc(f.node, outs[..f.next], outs[f.next], back);
    assert outs[..f.next] + [outs[f.next]] == outs[..f.next+1];
  }

  lemma Taints(G: Succ, back: set<Edge>, w: Walk, st: Trail, pos: map<Node, nat>)
    requires Walking(G, back, w, st, pos) && st.Push? && st.top.next < |Outs(G, st.top.node)|
    requires Outs(G, st.top.node)[st.top.next] in w.onStack
    ensures Walking(G, back, w.(cyclic := w.cyclic + {st.top.node}),
            Push(Frame(st.top.node, st.top.next + 1), st.below), pos)
  {
    var w' := w.(cyclic := w.cyclic + {st.top.node});
    TrailKept(G, back, w, w', st.top.node, st.below, Some(st.top.node), Some(st.top.node));
  }

  // Keeping one more flow of the top node disturbs nothing that is finished.
  lemma FollowsDone(G: Succ, back: set<Edge>, w: Walk, w': Walk, n: Node, pos: map<Node, nat>)
    requires Ordered(w, pos) && Faithful(G, back, w) && n in w.onStack
    requires w'.done == w.done && w'.order == w.order && w'.cyclic == w.cyclic
    requires w.onStack <= w'.onStack && w'.onStack !! w.done && w'.succ.Keys <= w.succ.Keys + {n}
    requires forall u :: u != n ==> Outs(w'.succ, u) == Outs(w.succ, u)
    ensures Ordered(w', pos) && Faithful(G, back, w')
  {
    forall u, v | u in pos && HasEdge(w'.succ, u, v)
      ensures v in pos && pos[v] < pos[u]
      ensures u !in w'.cyclic ==> v !in w'.cyclic
    {
      assert HasEdge(w.succ, u, v);
    }
  }

  // The top frame after keeping its next flow.
  lemma FollowsFrame(G: Succ, back: set<Edge>, w: Walk, w': Walk, f: Frame)
    requires FrameOk(G, back, w, f, None) && f.next < |Outs(G, f.node)|
    requires var next := Outs(G, f.node)[f.next];
      && Edge(f.node, next) !in back && next in Seen(w')
      && Outs(w'.succ, f.node) == Outs(w.succ, f.node) + [next]
    requires w'.done == w.done && w'.cyclic == w.cyclic && Seen(w) <= Seen(w')
    ensures FrameOk(G, back, w', Frame(f.node, f.next + 1), Some(Outs(G, f.node)[f.next]))
  {
    var outs := Outs(G, f.node);
    KeepSnoc(f.node, outs[..f.next], outs[f.next], back);
    assert outs[..f.next] + [outs[f.next]] == outs[..f.next+1];
  }

  lemma Follows(G: Succ, back: set<Edge>, w: Walk, st: Trail, pos: map<Node, nat>)
    requires Walking(G, back, w, st, pos) && st.Push? && st.top.next < |Outs(G, st.top.node)|
    requires var next := Outs(G, st.top.node)[st.top.next]; Edge(st.top.node, next) !in back && next !in w.onStack
    ensures var (w', st') := Step(G, back, w, st); Walking(G, back, w', st', pos)
  {
    FollowsFields(G, back, w, st);
    hide *;
    var (w', st') := Step(G, back, w, st);
    FollowsTo(G, back, w, st, w', st', pos);
  }

  // w' and st' are the walk after keeping the flow to next.
  ghost predicate Followed(w: Walk, st: Trail, next: Node, w': Walk, st': Trail)
    requires st.Push?
  {
    && w'.done == w.done && w'.order == w.order && w'.cyclic == w.cyclic
    && w'.onStack == (if next in w.done then w.onStack else w.onStack + {next})
    && w'.succ == w.succ[st.top.node := Outs(w.succ, st.top.node) + [next]]
    && st' == (var rest := Push(Frame(st.top.node, st.top.next + 1), st.below);
               if next in w.done then rest else Push(Frame(next, 0), rest))
  }

  lemma FollowsTo(G: Succ, back: set<Edge>, w: Walk, st: Trail, w': Walk, st': Trail, pos: map<Node, nat>)
    requires Walking(G, back, w, st, pos) && st.Push? && st.top.next < |Outs(G, st.top.node)|
    requires var next := Outs(G, st.top.node)[st.top.next];
             Edge(st.top.node, next) !in back && next !in w.onStack && Followed(w, st, next, w', st')
    ensures Walking(G, back, w', st', pos)
  {
    hide Ordered;
    var f := st.top;
    assert HasEdge(G, f.node, Outs(G, f.node)[f.next]);
    FollowsFrame(G, back, w, w', f);
    TrailKept(G, back, w, w', f.node, st.below, Some(f.node), Some(f.node));
    FollowsDone(G, back, w, w', f.node, pos);
    hide FrameOk, Faithful, HasEdge;
    assert w'.onStack == Nodes(st');
    assert TrailOk(G, back, w', st', None) by { TrailFollowed(G, back, w, st, w', st'); }
  }

  lemma TrailFollowed(G: Succ, back: set<Edge>, w: Walk, st: Trail, w': Walk, st': Trail)
    requires st.Push? && st.top.next < |Outs(G, st.top.node)| && st.top.node !in Nodes(st.below)
    requires var f, next := st.top, Outs(G, st.top.node)[st.top.next];
             && Followed(w, st, next, w', st') && Edge(f.node, next) !in back
             && FrameOk(G, back, w', Frame(f.node, f.next + 1), Some(next))
             && TrailOk(G, back, w', st.below, Some(f.node))
             && (st.below.Push? ==> HasEdge(G, st.below.top.node, f.node) && Edge(st.below.top.node, f.node) !in back)
             && (next !in w.done ==> next !in Nodes(st) && next !in w'.succ && next !in w'.cyclic)
    ensures TrailOk(G, back, w', st', None)
  {
    hide Keep;
    var next := Outs(G, st.top.node)[st.top.next];
    assert Outs(G, next)[..0] == [];
    assert Keep(next, [], back) == [] by { KeepsNothing(next, back); }
  }

  lemma KeepsNothing(n: Node, back: set<Edge>)
    ensures Keep(n, [], back) == []
  {
  }

  lemma FollowsFields(G: Succ, back: set<Edge>, w: Walk, st: Trail)
    requires st.Push? && st.top.next < |Outs(G, st.top.node)|
    requires var next := Outs(G, st.top.node)[st.top.next]; Edge(st.top.node, next) !in back && next !in w.onStack
    ensures var (w', st') := Step(G, back, w, st); Followed(w, st, Outs(G, st.top.node)[st.top.next], w', st')
  {
  }

  lemma StepKeeps(G: Succ, back: set<Edge>, w: Walk, st: Trail, pos: map<Node, nat>) returns (pos': map<Node, nat>)
    requires Walking(G, back, w, st, pos) && st.Push?
    ensures var (w', st') := Step(G, back, w, st); Walking(G, back, w', st', pos')
  {
    pos' := pos;
    var outs := Outs(G, st.top.node);
    if st.top.next >= |outs| {
      pos' := Finishes(G, back, w, st, pos);
    } else if Edge(st.top.node, outs[st.top.next]) in back {
      Skips(G, back, w, st, pos);
    } else if outs[st.top.next] in w.onStack {
      Taints(G, back, w, st, pos);
    } else {
      Follows(G, back, w, st, pos);
    }
  }

  // ----- tainted nodes reach a cycle -----

  ghost predicate Sound(G: Succ, back: set<Edge>, w: Walk) {
    forall u, v {:trigger HasEdge(w.succ, u, v)} :: HasEdge(w.succ, u, v) ==> HasEdge(G, u, v) && Edge(u, v) !in back
  }

  lemma {:induction false} TrailReaches(G: Succ, back: set<Edge>, w: Walk, st: Trail, child: Option<Node>, n: Node)
    requires TrailOk(G, back, w, st, child) && n in Nodes(st)
    ensures Reaches(Forward(G, back), n, st.top.node)
  {
    if n == st.top.node {
      ReachesSelf(Forward(G, back), n);
    } else {
      TrailReaches(G, back, w, st.below, Some(st.top.node), n);
      assert HasEdge(Forward(G, back), st.below.top.node, st.top.node);
      ReachesSnoc(Forward(G, back), n, st.below.top.node, st.top.node);
    }
  }

  lemma OnStackCycles(G: Succ, back: set<Edge>, w: Walk, st: Trail, next: Node)
    requires st.Push? && TrailOk(G, back, w, st, None) && next in Nodes(st)
    requires HasEdge(G, st.top.node, next) && Edge(st.top.node, next) !in back
    ensures ReachesCycle(Forward(G, back), st.top.node)
  {
    var F := Forward(G, back);
    TrailReaches(G, back, w, st, None, next);
    assert HasEdge(F, st.top.node, next);
    assert OnCycle(F, st.top.node);
    ReachesSelf(F, st.top.node);
  }

  lemma SuccessorTaints(G: Succ, back: set<Edge>, n: Node, s: Node)
    requires HasEdge(G, n, s) && Edge(n, s) !in back && ReachesCycle(Forward(G, back), s)
    ensures ReachesCycle(Forward(G, back), n)
  {
    var F := Forward(G, back);
    var m :| Reaches(F, s, m) && OnCycle(F, m);
    assert HasEdge(F, n, s);
    ReachesStep(F, n, s, m);
  }

  lemma StepTaints(G: Succ, back: set<Edge>, w: Walk, st: Trail)
    requires st.Push? && TrailOk(G, back, w, st, None) && w.onStack == Nodes(st)
    requires Sound(G, back, w) && Tainted(G, back, w)
    ensures var (w', st') := Step(G, back, w, st); Tainted(G, back, w')
  {
    var n := st.top.node;
    var outs := Outs(G, n);
    if st.top.next >= |outs| {
      if s :| s in Outs(w.succ, n) && s in w.cyclic {
        assert HasEdge(w.succ, n, s);
        SuccessorTaints(G, back, n, s);
      }
    } else if Edge(n, outs[st.top.next]) !in back && outs[st.top.next] in w.onStack {
      assert HasEdge(G, n, outs[st.top.next]);
      OnStackCycles(G, back, w, st, outs[st.top.next]);
    }
  }

  lemma StepSound(G: Succ, back: set<Edge>, w: Walk, st: Trail)
    requires st.Push? && Sound(G, back, w)
    ensures var (w', st') := Step(G, back, w, st); Sound(G, back, w')
  {
    var (w', st') := Step(G, back, w, st);
    forall u, v | HasEdge(w'.succ, u, v)
      ensures HasEdge(G, u, v) && Edge(u, v) !in back
    {
      if !HasEdge(w.succ, u, v) {
        assert u == st.top.node && v == Outs(G, u)[st.top.next];
      }
    }
  }

  // ----- the finished walk -----

  ghost predicate AtRest(G: Succ, back: set<Edge>, w: Walk, pos: map<Node, nat>) {
    Walking(G, back, w, Bottom, pos) && Sound(G, back, w) && Tainted(G, back, w)
  }

  // Everything the walk keeps, one step at a time.
  ghost predicate Going(G: Succ, back: set<Edge>, w: Walk, st: Trail, pos: map<Node, nat>) {
    Walking(G, back, w, st, pos) && Sound(G, back, w) && Tainted(G, back, w)
  }

  lemma StepSeen(G: Succ, back: set<Edge>, w: Walk, st: Trail)
    requires st.Push?
    ensures Seen(w) <= Seen(Step(G, back, w, st).0)
  {
  }

  lemma StepGoes(G: Succ, back: set<Edge>, w: Walk, st: Trail, pos: map<Node, nat>)
    returns (w': Walk, st': Trail, pos': map<Node, nat>)
    requires Going(G, back, w, st, pos) && st.Push?
    ensures (w', st') == Step(G, back, w, st) && Going(G, back, w', st', pos')
  {
    var next := Step(G, back, w, st);
    w', st' := next.0, next.1;
    pos' := StepKeeps(G, back, w, st, pos);
    StepSound(G, back, w, st);
    StepTaints(G, back, w, st);
  }

  lemma {:induction false} RunKeeps(G: Succ, back: set<Edge>, w: Walk, st: Trail, pos: map<Node, nat>)
    returns (pos': map<Node, nat>)
    requires Going(G, back, w, st, pos)
    ensures AtRest(G, back, Run(G, back, w, st), pos')
    ensures Seen(w) <= Seen(Run(G, back, w, st))
    decreases |Targets(G) - Seen(w)|, Work(G, st)
  {
    if st.Bottom? {
      pos' := pos;
    } else {
      StepWorks(G, back, Targets(G), w, st);
      StepSeen(G, back, w, st);
      var w', st', mid := StepGoes(G, back, w, st, pos);
      pos' := RunKeeps(G, back, w', st', mid);
    }
  }

  lemma FromKeeps(G: Succ, back: set<Edge>, w: Walk, root: Node, pos: map<Node, nat>) returns (pos': map<Node, nat>)
    requires AtRest(G, back, w, pos) && root !in w.done
    ensures AtRest(G, back, From(G, back, w, root), pos')
    ensures w.done + {root} <= From(G, back, w, root).done
  {
    hide AtRest, Going, Walking;
    Starts(G, back, w, root, pos);
    pos' := RunKeeps(G, back, w.(onStack := w.onStack + {root}), Push(Frame(root, 0), Bottom), pos);
    RestDone(G, back, From(G, back, w, root), pos');
  }

  lemma Starts(G: Succ, back: set<Edge>, w: Walk, root: Node, pos: map<Node, nat>)
    requires AtRest(G, back, w, pos) && root !in w.done
    ensures Going(G, back, w.(onStack := w.onStack + {root}), Push(Frame(root, 0), Bottom), pos)
  {
    var w1 := w.(onStack := w.onStack + {root});
    var st := Push(Frame(root, 0), Bottom);
    assert Nodes(st) == {root};
    assert w1.onStack == {root};
    assert Ordered(w1, pos);
    assert Faithful(G, back, w1);
    assert TrailOk(G, back, w1, st, None);
    assert Sound(G, back, w1);
    assert Tainted(G, back, w1);
  }

  lemma RestDone(G: Succ, back: set<Edge>, w: Walk, pos: map<Node, nat>)
    requires AtRest(G, back, w, pos)
    ensures w.onStack == {}
  {
    hide Ordered, Faithful, Sound, Tainted;
  }

  lemma FreshAtRest(G: Succ, back: set<Edge>)
    ensures AtRest(G, back, FRESH, map[])
  {
  }

  // The untainted finished nodes.
  ghost function Clean(w: Walk): set<Node> {
    w.done - w.cyclic
  }

  lemma CleanAgrees(G: Succ, back: set<Edge>, w: Walk, pos: map<Node, nat>)
    requires AtRest(G, back, w, pos)
    ensures Closed(w.succ, Clean(w)) && Closed(Forward(G, back), Clean(w))
    ensures forall u :: u in Clean(w) ==> Outs(w.succ, u) == Outs(Forward(G, back), u)
  {
    var F := Forward(G, back);
    forall u | u in Clean(w)
      ensures Outs(w.succ, u) == Outs(F, u)
    {
      assert Outs(F, u) == Keep(u, Outs(G, u), back);
    }
    forall u, v | u in Clean(w) && HasEdge(F, u, v)
      ensures v in Clean(w)
    {
      assert HasEdge(w.succ, u, v);
    }
  }

  // A walk taints exactly the finished nodes from which a forward cycle can be reached.
  lemma TaintedIffReachesCycle(G: Succ, back: set<Edge>, w: Walk, pos: map<Node, nat>, n: Node)
    requires AtRest(G, back, w, pos) && n in w.done
    ensures n in w.cyclic <==> ReachesCycle(Forward(G, back), n)
  {
    var F := Forward(G, back);
    if n !in w.cyclic {
      CleanRanked(G, back, w, pos);
      var rank := CleanRank(w, pos);
      forall u, v | u in rank && HasEdge(F, u, v)
        ensures v in rank && rank[v] < rank[u]
      {
        assert HasEdge(w.succ, u, v);
      }
      RankedAcyclic(F, rank, n);
    }
  }

  ghost function CleanRank(w: Walk, pos: map<Node, nat>): map<Node, nat>
    requires pos.Keys == w.done
  {
    map u | u in Clean(w) :: pos[u]
  }

  lemma CleanRanked(G: Succ, back: set<Edge>, w: Walk, pos: map<Node, nat>)
    requires AtRest(G, back, w, pos)
    ensures CleanRank(w, pos).Keys == Clean(w)
    ensures Ranked(w.succ, CleanRank(w, pos)) && Agree(w.succ, Forward(G, back), Clean(w))
  {
    CleanAgrees(G, back, w, pos);
    forall u, v | u in Clean(w) && HasEdge(w.succ, u, v)
      ensures v in Clean(w) && pos[v] < pos[u]
    {
    }
  }

  // ----- what the walk visits -----

  lemma StepWithin(G: Succ, back: set<Edge>, w: Walk, st: Trail, T: set<Node>)
    requires st.Push? && Seen(w) <= T && Nodes(st) <= T
    requires forall u, v {:trigger HasEdge(G, u, v)} :: HasEdge(G, u, v) && Edge(u, v) !in back ==> v in T
    ensures var (w', st') := Step(G, back, w, st); Seen(w') <= T && Nodes(st') <= T
  {
    var outs := Outs(G, st.top.node);
    if st.top.next < |outs| {
      assert HasEdge(G, st.top.node, outs[st.top.next]);
    }
  }

  lemma {:induction false} RunWithin(G: Succ, back: set<Edge>, w: Walk, st: Trail, T: set<Node>)
    requires Seen(w) <= T && Nodes(st) <= T
    requires forall u, v {:trigger HasEdge(G, u, v)} :: HasEdge(G, u, v) && Edge(u, v) !in back ==> v in T
    ensures Seen(Run(G, back, w, st)) <= T
    decreases |Targets(G) - Seen(w)|, Work(G, st)
  {
    if st.Push? {
      StepWorks(G, back, Targets(G), w, st);
      StepWithin(G, back, w, st, T);
      hide Seen;
      RunWithin(G, back, Step(G, back, w, st).0, Step(G, back, w, st).1, T);
    }
  }

  lemma FromWithin(G: Succ, back: set<Edge>, w: Walk, root: Node, T: set<Node>)
    requires Seen(w) <= T && root in T
    requires forall u, v {:trigger HasEdge(G, u, v)} :: HasEdge(G, u, v) && Edge(u, v) !in back ==> v in T
    ensures Seen(From(G, back, w, root)) <= T
  {
    RunWithin(G, back, w.(onStack := w.onStack + {root}), Push(Frame(root, 0), Bottom), T);
  }
}

/**
 * Where a split's branches meet again: the search below one split (graph.go's
 * FindJoin) and the index that answers every split from one walk (joins.go).
 */
module Joins {
  import opened Wrappers
  import opened Graphs
  import opened Bpmn
  import opened ForwardWalk
  import opened PostDominators
  import D = Dfs

  // ----- the tree under construction -----

  // parent/depth is the post-dominator tree of the nodes placed so far.
  ghost predicate Forest(S: Succ, rank: map<Node, nat>, parent: Parents, depth: map<Node, nat>,
                         anc: map<Node, set<Node>>)
  {
    && Ranked(S, rank) && TreeOk(parent, depth, anc)
    && forall n {:trigger anc[n]} :: n in anc ==> n in rank && anc[n] == PD(S, rank, n)
  }

  ghost function Common(anc: map<Node, set<Node>>, ns: seq<Node>): set<Node> {
    if ns == [] then {}
    else if |ns| == 1 then Up(anc, Some(ns[0]))
    else Common(anc, ns[..|ns|-1]) * Up(anc, Some(ns[|ns|-1]))
  }

  lemma {:induction false} CommonIsMeet(S: Succ, rank: map<Node, nat>, anc: map<Node, set<Node>>, ns: seq<Node>,
                                        bound: nat)
    requires Ranked(S, rank) && Below(rank, ns, bound)
    requires forall m :: m in ns ==> m in anc && anc[m] == PD(S, rank, m)
    ensures Common(anc, ns) == Meet(S, rank, ns, bound)
  {
    hide PD;
    if ns != [] {
      assert ns[|ns|-1] in ns;
      if |ns| > 1 {
        CommonIsMeet(S, rank, anc, ns[..|ns|-1], bound);
      }
    }
  }

  /** Meets a node's successors in the tree, left to right. */
  method MeetSuccessors(succs: seq<Node>, parent: Parents, depth: map<Node, nat>, ghost anc: map<Node, set<Node>>)
    returns (meet: Option<Node>)
    requires TreeOk(parent, depth, anc) && forall m :: m in succs ==> m in parent
    ensures Placed(parent, meet) && Up(anc, meet) == Common(anc, succs)
  {
    hide TreeOk;
    meet := None;
    for i := 0 to |succs|
      invariant Placed(parent, meet) && Up(anc, meet) == Common(anc, succs[..i])
    {
      assert succs[..i+1][..i] == succs[..i] && succs[i] in succs;
      if i == 0 {
        meet := Some(succs[0]);
      } else {
        meet := CommonAncestor(meet, Some(succs[i]), parent, depth, anc);
      }
    }
    assert succs[..|succs|] == succs;
  }

  // Giving n the meet of its successors as parent extends the tree by n.
  lemma ForestGrows(S: Succ, rank: map<Node, nat>, parent: Parents, depth: map<Node, nat>, anc: map<Node, set<Node>>,
                    n: Node, meet: Option<Node>)
    requires Forest(S, rank, parent, depth, anc) && n in rank && n !in parent
    requires Placed(parent, meet) && Up(anc, meet) == Common(anc, Outs(S, n))
    requires forall m :: m in Outs(S, n) ==> m in parent
    ensures Forest(S, rank, parent[n := meet], depth[n := DepthOf(depth, meet) + 1], anc[n := {n} + Up(anc, meet)])
  {
    hide Nested, LocalAt, PD;
    PDMeets(S, rank, n);
    CommonIsMeet(S, rank, anc, Outs(S, n), rank[n]);
    TreeGrows(parent, depth, anc, n, meet);
  }

  // ----- one walk -----

  /** Walks forward from root, on top of what earlier roots finished. */
  method WalkFrom(G: Succ, back: set<Edge>, w0: Walk, root: Node) returns (w: Walk)
    ensures w == From(G, back, w0, root)
  {
    w := w0.(onStack := w0.onStack + {root});
    var st := Push(Frame(root, 0), Bottom);
    while st.Push?
      invariant Run(G, back, w, st) == From(G, back, w0, root)
      decreases |Targets(G) - Seen(w)|, Work(G, st)
    {
      StepWorks(G, back, Targets(G), w, st);
      var next := Step(G, back, w, st);
      w, st := next.0, next.1;
    }
  }

  // ----- the search below one split -----

  function ForwardOuts(G: Succ, back: set<Edge>, n: Node): seq<Node> {
    Keep(n, Outs(G, n), back)
  }

  method ForwardCount(G: Succ, back: set<Edge>, n: Node) returns (count: nat)
    ensures count == |ForwardOuts(G, back, n)|
  {
    count := 0;
    var outs := Outs(G, n);
    for i := 0 to |outs|
      invariant count == |Keep(n, outs[..i], back)|
    {
      KeepSnoc(n, outs[..i], outs[i], back);
      assert outs[..i] + [outs[i]] == outs[..i+1];
      if Edge(n, outs[i]) !in back {
        count := count + 1;
      }
    }
    assert outs[..|outs|] == outs;
  }

  // What one walk from n alone finds.
  ghost function Below1(G: Succ, back: set<Edge>, n: Node): Walk {
    From(G, back, FRESH, n)
  }

  // r is the join the search below n alone finds: nothing short of two forward flows,
  // else the nearest node every path of the flows that walk kept passes.
  ghost predicate JoinOf(G: Succ, back: set<Edge>, n: Node, r: Option<Node>) {
    if |ForwardOuts(G, back, n)| < 2 then r == None
    else IsImmediate(Below1(G, back, n).succ, n, r)
  }

  // The post-dominators of j are those of n, n aside: j is n's immediate one.
  lemma ImmediateFromSets(S: Succ, rank: map<Node, nat>, n: Node, j: Option<Node>)
    requires Ranked(S, rank) && n in rank && (j.Some? ==> j.value in rank && n !in PD(S, rank, j.value))
    requires PD(S, rank, n) == {n} + if j.Some? then PD(S, rank, j.value) else {}
    ensures IsImmediate(S, n, j)
  {
    hide PD;
    forall d
      ensures d in PD(S, rank, n) <==> PostDominates(S, d, n)
    {
      PDIffPostDominates(S, rank, n, d);
    }
    if j.Some? {
      forall d
        ensures d in PD(S, rank, j.value) <==> PostDominates(S, d, j.value)
      {
        PDIffPostDominates(S, rank, j.value, d);
      }
      InPD(S, rank, j.value, j.value);
    }
  }

  lemma ParentIsImmediate(S: Succ, rank: map<Node, nat>, parent: Parents, depth: map<Node, nat>,
                          anc: map<Node, set<Node>>, n: Node)
    requires Forest(S, rank, parent, depth, anc) && n in parent
    ensures IsImmediate(S, n, parent[n])
  {
    hide PD;
    assert LocalAt(parent, depth, anc, n) && anc[n] == PD(S, rank, n);
    if parent[n].Some? {
      assert anc[parent[n].value] == PD(S, rank, parent[n].value);
    }
    ImmediateFromSets(S, rank, n, parent[n]);
  }

  lemma ImmediateUnique(S: Succ, rank: map<Node, nat>, n: Node, r: Option<Node>, r': Option<Node>)
    requires Ranked(S, rank) && n in rank && IsImmediate(S, n, r) && IsImmediate(S, n, r')
    ensures r == r'
  {
    hide PD;
    if r.Some? && r'.Some? && r != r' {
      var a, b := r.value, r'.value;
      PDIffPostDominates(S, rank, n, a);
      PDIffPostDominates(S, rank, n, b);
      PDRank(S, rank, n, a);
      PDRank(S, rank, n, b);
      PDIffPostDominates(S, rank, a, b);
      PDIffPostDominates(S, rank, b, a);
      PDRank(S, rank, a, b);
      PDRank(S, rank, b, a);
    }
  }

  // ----- growing the tree along a finishing order -----

  // The nodes finished before place i are exactly the ones in the tree, but for those skipped.
  ghost predicate PlacedBefore(pos: map<Node, nat>, skip: set<Node>, parent: Parents, i: nat) {
    forall n :: n in parent <==> n in pos && pos[n] < i && n !in skip
  }

  lemma SuccessorsPlaced(w: Walk, pos: map<Node, nat>, skip: set<Node>, parent: Parents, i: nat)
    requires Ordered(w, pos) && i < |w.order| && w.order[i] !in skip && PlacedBefore(pos, skip, parent, i)
    requires forall v :: HasEdge(w.succ, w.order[i], v) ==> v !in skip
    ensures w.order[i] !in parent && forall m :: m in Outs(w.succ, w.order[i]) ==> m in parent
  {
    forall m | m in Outs(w.succ, w.order[i])
      ensures m in parent
    {
      assert HasEdge(w.succ, w.order[i], m);
    }
  }

  lemma RankedByPlace(w: Walk, pos: map<Node, nat>)
    requires Ordered(w, pos)
    ensures Ranked(w.succ, pos)
  {
  }

  /** The immediate post-dominator of root in the graph of the flows a walk from root keeps. */
  method ImmediatePostDominator(root: Node, G: Succ, back: set<Edge>) returns (r: Option<Node>)
    ensures IsImmediate(Below1(G, back, root).succ, root, r)
  {
    hide AtRest, From, Ordered, Forest, PlacedBefore, Ranked;
    var w := WalkFrom(G, back, FRESH, root);
    ghost var pos := WalkPlaces(G, back, root);
    RankedByPlace(w, pos);
    NothingPlaced(w, pos);
    var parent: Parents, depth: map<Node, nat> := map[], map[];
    ghost var anc: map<Node, set<Node>> := map[];
    for i := 0 to |w.order|
      invariant Forest(w.succ, pos, parent, depth, anc)
      invariant PlacedBefore(pos, {}, parent, i)
    {
      hide TreeOk, Up, Common;
      var n := w.order[i];
      SuccessorsPlaced(w, pos, {}, parent, i);
      ForestIsTree(w.succ, pos, parent, depth, anc);
      var meet := MeetSuccessors(Outs(w.succ, n), parent, depth, anc);
      NextInOrder(w, pos, parent, i, meet);
      ForestGrows(w.succ, pos, parent, depth, anc, n, meet);
      parent, anc := parent[n := meet], anc[n := {n} + Up(anc, meet)];
      depth := depth[n := DepthOf(depth, meet) + 1];
    }
    RootPlaced(w, pos, parent, root);
    ParentIsImmediate(w.succ, pos, parent, depth, anc, root);
    r := parent[root];
  }

  lemma WalkPlaces(G: Succ, back: set<Edge>, root: Node) returns (pos: map<Node, nat>)
    ensures Ordered(Below1(G, back, root), pos) && root in Below1(G, back, root).done
  {
    hide From, Ordered, Faithful, Tainted, Sound;
    assert AtRest(G, back, FRESH, map[]) by { FreshAtRest(G, back); }
    pos := FromKeeps(G, back, FRESH, root, map[]);
  }

  lemma NothingPlaced(w: Walk, pos: map<Node, nat>)
    requires Ranked(w.succ, pos)
    ensures Forest(w.succ, pos, map[], map[], map[]) && PlacedBefore(pos, {}, map[], 0)
  {
    hide Ranked;
  }

  lemma ForestIsTree(S: Succ, rank: map<Node, nat>, parent: Parents, depth: map<Node, nat>, anc: map<Node, set<Node>>)
    requires Forest(S, rank, parent, depth, anc)
    ensures TreeOk(parent, depth, anc)
  {
    hide TreeOk, Ranked, PD;
  }

  lemma NextInOrder(w: Walk, pos: map<Node, nat>, parent: Parents, i: nat, meet: Option<Node>)
    requires Ordered(w, pos) && i < |w.order| && PlacedBefore(pos, {}, parent, i)
    ensures w.order[i] in pos && w.order[i] !in parent && PlacedBefore(pos, {}, parent[w.order[i] := meet], i + 1)
  {
    hide HasEdge;
  }

  lemma RootPlaced(w: Walk, pos: map<Node, nat>, parent: Parents, root: Node)
    requires Ordered(w, pos) && PlacedBefore(pos, {}, parent, |w.order|) && root in w.done
    ensures root in parent
  {
    hide HasEdge;
  }

  method FindJoin(n: Node, G: Succ, back: set<Edge>) returns (r: Option<Node>)
    ensures JoinOf(G, back, n, r)
  {
    var count := ForwardCount(G, back, n);
    if count < 2 {
      return None;
    }
    r := ImmediatePostDominator(n, G, back);
  }

  lemma JoinUnique(G: Succ, back: set<Edge>, n: Node, r: Option<Node>, r': Option<Node>)
    requires JoinOf(G, back, n, r) && JoinOf(G, back, n, r')
    ensures r == r'
  {
    if |ForwardOuts(G, back, n)| >= 2 {
      FreshAtRest(G, back);
      var pos := FromKeeps(G, back, FRESH, n, map[]);
      RankedByPlace(Below1(G, back, n), pos);
      ImmediateUnique(Below1(G, back, n).succ, pos, n, r, r');
    }
  }

  /**
   * Where no forward cycle can be reached, the join found is exactly the nearest
   * node every maximal forward path from the split passes.
   */
  lemma JoinExact(G: Succ, back: set<Edge>, n: Node, r: Option<Node>)
    requires !ReachesCycle(Forward(G, back), n) && |ForwardOuts(G, back, n)| >= 2
    ensures JoinOf(G, back, n, r) <==> IsImmediate(Forward(G, back), n, r)
  {
    var w := Below1(G, back, n);
    FreshAtRest(G, back);
    var pos := FromKeeps(G, back, FRESH, n, map[]);
    TaintedIffReachesCycle(G, back, w, pos, n);
    CleanRanked(G, back, w, pos);
    ImmediateAgrees(w.succ, Forward(G, back), CleanRank(w, pos), n, r);
  }

  lemma JoinExists(G: Succ, back: set<Edge>, n: Node) returns (r: Option<Node>)
    ensures JoinOf(G, back, n, r)
  {
    r := None;
    if |ForwardOuts(G, back, n)| >= 2 {
      FreshAtRest(G, back);
      var pos := FromKeeps(G, back, FRESH, n, map[]);
      RankedByPlace(Below1(G, back, n), pos);
      r := ImmediateExists(Below1(G, back, n).succ, pos, n);
    }
  }

  // ----- which nodes lead to an end event -----

  ghost predicate ReachesEnd(S: Succ, g: Graph, n: Node) {
    exists e :: Reaches(S, n, e) && IsEnd(g, e)
  }

  lemma ReachesEndStep(S: Succ, g: Graph, n: Node)
    ensures ReachesEnd(S, g, n) <==> IsEnd(g, n) || exists m :: m in Outs(S, n) && ReachesEnd(S, g, m)
  {
    ReachesSelf(S, n);
    if ReachesEnd(S, g, n) && !IsEnd(g, n) {
      var e :| Reaches(S, n, e) && IsEnd(g, e);
      var m := ReachesFirst(S, n, e);
      assert m in Outs(S, n) && ReachesEnd(S, g, m);
    }
    if m :| m in Outs(S, n) && ReachesEnd(S, g, m) {
      var e :| Reaches(S, m, e) && IsEnd(g, e);
      assert HasEdge(S, n, m);
      ReachesStep(S, n, m, e);
    }
  }

  lemma ReachesEndAgrees(S: Succ, F: Succ, R: set<Node>, g: Graph, n: Node)
    requires Agree(S, F, R) && n in R
    ensures ReachesEnd(S, g, n) <==> ReachesEnd(F, g, n)
  {
    forall e
      ensures Reaches(S, n, e) <==> Reaches(F, n, e)
    {
      ReachesAgrees(S, F, R, n, e);
    }
  }

  // ----- the index over all splits -----

  // A flow starts at n, or a forward flow ends there: the nodes the index walks.
  ghost predicate Touched(G: Succ, back: set<Edge>, n: Node) {
    n in G || exists u :: HasEdge(Forward(G, back), u, n)
  }

  ghost function TouchedSet(G: Succ, back: set<Edge>): set<Node> {
    G.Keys + set n | n in Targets(G) && Touched(G, back, n)
  }

  lemma TouchedIsSet(G: Succ, back: set<Edge>, n: Node)
    ensures n in TouchedSet(G, back) <==> Touched(G, back, n)
  {
    if u :| HasEdge(Forward(G, back), u, n) {
      assert HasEdge(G, u, n) && u in G && n in G[u];
    }
  }

  /** Walks from every node with a flow, whatever the order of the roots. */
  method WalkAll(G: Succ, back: set<Edge>) returns (w: Walk, ghost pos: map<Node, nat>)
    ensures AtRest(G, back, w, pos) && w.done == TouchedSet(G, back)
  {
    w, pos := FRESH, map[];
    FreshAtRest(G, back);
    ghost var T := TouchedSet(G, back);
    forall u, v | HasEdge(G, u, v) && Edge(u, v) !in back
      ensures v in T
    {
      assert HasEdge(Forward(G, back), u, v);
      TouchedIsSet(G, back, v);
    }
    var roots := G.Keys;
    while roots != {}
      invariant AtRest(G, back, w, pos) && Seen(w) <= T
      invariant roots <= G.Keys && G.Keys - roots <= w.done
    {
      hide Walking, Sound, Tainted;
      var root :| root in roots;
      roots := roots - {root};
      if root !in w.done {
        pos := FromKeeps(G, back, w, root, pos);
        FromWithin(G, back, w, root, T);
        w := WalkFrom(G, back, w, root);
      }
    }
    AllWalked(G, back, w, pos);
  }

  lemma AllWalked(G: Succ, back: set<Edge>, w: Walk, pos: map<Node, nat>)
    requires AtRest(G, back, w, pos) && G.Keys <= w.done
    ensures TouchedSet(G, back) <= w.done
  {
    forall n | n in TouchedSet(G, back)
      ensures n in w.done
    {
      TouchedIsSet(G, back, n);
      if n !in G {
        var u :| HasEdge(Forward(G, back), u, n);
        assert HasEdge(G, u, n) && Edge(u, n) !in back && u in w.done;
      }
    }
  }

  // ----- the index -----

  // The tree and the end marks of the untainted nodes placed before i.
  ghost predicate Indexed(g: Graph, w: Walk, pos: map<Node, nat>, parent: Parents, depth: map<Node, nat>,
                          anc: map<Node, set<Node>>, ends: set<Node>, i: nat)
    requires pos.Keys == w.done
  {
    && Forest(w.succ, CleanRank(w, pos), parent, depth, anc)
    && PlacedBefore(pos, w.cyclic, parent, i) && ends <= parent.Keys
    && forall n :: n in parent ==> (n in ends <==> ReachesEnd(w.succ, g, n))
  }

  // The facts one step of the indexing loop starts from.
  lemma NextPlaced(g: Graph, back: set<Edge>, w: Walk, pos: map<Node, nat>, parent: Parents, i: nat)
    requires AtRest(g.outgoing, back, w, pos) && i < |w.order| && w.order[i] !in w.cyclic
    requires PlacedBefore(pos, w.cyclic, parent, i)
    ensures w.order[i] in CleanRank(w, pos) && w.order[i] !in parent
    ensures forall m :: m in Outs(w.succ, w.order[i]) ==> m in parent
  {
    CleanRanked(g.outgoing, back, w, pos);
    assert w.order[i] in pos;
    SuccessorsPlaced(w, pos, w.cyclic, parent, i);
  }

  lemma EndsGrow(g: Graph, w: Walk, parent: Parents, ends: set<Node>, n: Node)
    requires forall m :: m in parent ==> (m in ends <==> ReachesEnd(w.succ, g, m))
    requires forall m :: m in Outs(w.succ, n) ==> m in parent
    ensures (IsEnd(g, n) || exists m :: m in Outs(w.succ, n) && m in ends) <==> ReachesEnd(w.succ, g, n)
  {
    hide ReachesEnd;
    ReachesEndStep(w.succ, g, n);
  }

  lemma NothingIndexed(g: Graph, back: set<Edge>, w: Walk, pos: map<Node, nat>)
    requires AtRest(g.outgoing, back, w, pos)
    ensures pos.Keys == w.done && Indexed(g, w, pos, map[], map[], map[], {}, 0)
  {
    CleanRanked(g.outgoing, back, w, pos);
  }

  lemma TreeSoFar(g: Graph, back: set<Edge>, w: Walk, pos: map<Node, nat>, parent: Parents, depth: map<Node, nat>,
                  anc: map<Node, set<Node>>, ends: set<Node>, i: nat)
    requires AtRest(g.outgoing, back, w, pos) && i < |w.order| && w.order[i] !in w.cyclic
    requires Indexed(g, w, pos, parent, depth, anc, ends, i)
    ensures TreeOk(parent, depth, anc) && forall m :: m in Outs(w.succ, w.order[i]) ==> m in parent
  {
    hide TreeOk;
    NextPlaced(g, back, w, pos, parent, i);
  }

  lemma SkipIndexed(g: Graph, back: set<Edge>, w: Walk, pos: map<Node, nat>, parent: Parents, depth: map<Node, nat>,
                    anc: map<Node, set<Node>>, ends: set<Node>, i: nat)
    requires AtRest(g.outgoing, back, w, pos) && i < |w.order| && w.order[i] in w.cyclic
    requires Indexed(g, w, pos, parent, depth, anc, ends, i)
    ensures Indexed(g, w, pos, parent, depth, anc, ends, i + 1)
  {
    hide Forest, Faithful, TrailOk, Sound, Tainted, ReachesEnd;
  }

  lemma PlaceIndexed(g: Graph, back: set<Edge>, w: Walk, pos: map<Node, nat>, parent: Parents, depth: map<Node, nat>,
                     anc: map<Node, set<Node>>, ends: set<Node>, i: nat, meet: Option<Node>, reaches: bool)
    requires AtRest(g.outgoing, back, w, pos) && i < |w.order| && w.order[i] !in w.cyclic
    requires Indexed(g, w, pos, parent, depth, anc, ends, i)
    requires Placed(parent, meet) && Up(anc, meet) == Common(anc, Outs(w.succ, w.order[i]))
    requires reaches <==> IsEnd(g, w.order[i]) || exists m :: m in Outs(w.succ, w.order[i]) && m in ends
    ensures var n := w.order[i];
      Indexed(g, w, pos, parent[n := meet], depth[n := DepthOf(depth, meet) + 1], anc[n := {n} + Up(anc, meet)],
              if reaches then ends + {n} else ends, i + 1)
  {
    hide TreeOk, PD, Common, Up, Faithful, TrailOk, Sound, Tainted, ReachesEnd;
    var n := w.order[i];
    NextPlaced(g, back, w, pos, parent, i);
    EndsGrow(g, w, parent, ends, n);
    ForestGrows(w.succ, CleanRank(w, pos), parent, depth, anc, n, meet);
  }

  // Every answer an index holds, in terms of the forward graph alone.
  ghost predicate Answers(g: Graph, back: set<Edge>, cyclic: set<Node>, ipdom: Parents, ends: set<Node>) {
    var F := Forward(g.outgoing, back);
    var T := TouchedSet(g.outgoing, back);
    && (forall n :: n in cyclic <==> n in T && ReachesCycle(F, n))
    && (forall n :: n in ipdom <==> n in T && !ReachesCycle(F, n))
    && (forall n :: n in ipdom ==> IsImmediate(F, n, ipdom[n]))
    && (forall n :: n in ends <==> n in ipdom && ReachesEnd(F, g, n))
  }

  lemma CyclicAnswer(g: Graph, back: set<Edge>, w: Walk, pos: map<Node, nat>, n: Node)
    requires AtRest(g.outgoing, back, w, pos)
    ensures n in w.cyclic <==> n in w.done && ReachesCycle(Forward(g.outgoing, back), n)
  {
    hide ReachesCycle;
    if n in w.done {
      TaintedIffReachesCycle(g.outgoing, back, w, pos, n);
    }
  }

  lemma TreeAnswer(g: Graph, back: set<Edge>, w: Walk, pos: map<Node, nat>, parent: Parents, depth: map<Node, nat>,
                   anc: map<Node, set<Node>>, ends: set<Node>, n: Node)
    requires AtRest(g.outgoing, back, w, pos) && n in parent
    requires Indexed(g, w, pos, parent, depth, anc, ends, |w.order|)
    ensures IsImmediate(Forward(g.outgoing, back), n, parent[n])
    ensures n in ends <==> ReachesEnd(Forward(g.outgoing, back), g, n)
  {
    CleanRanked(g.outgoing, back, w, pos);
    hide TreeOk, PD, ReachesEnd, IsImmediate, AtRest;
    ParentIsImmediate(w.succ, CleanRank(w, pos), parent, depth, anc, n);
    ImmediateAgrees(w.succ, Forward(g.outgoing, back), CleanRank(w, pos), n, parent[n]);
    ReachesEndAgrees(w.succ, Forward(g.outgoing, back), Clean(w), g, n);
  }

  lemma AllPlaced(g: Graph, back: set<Edge>, w: Walk, pos: map<Node, nat>, parent: Parents, depth: map<Node, nat>,
                  anc: map<Node, set<Node>>, ends: set<Node>)
    requires AtRest(g.outgoing, back, w, pos) && Indexed(g, w, pos, parent, depth, anc, ends, |w.order|)
    ensures ends <= parent.Keys && forall n :: n in parent <==> n in w.done && n !in w.cyclic
  {
    hide Forest, ReachesEnd, Faithful, TrailOk, Sound, Tainted;
  }

  lemma AllIndexed(g: Graph, back: set<Edge>, w: Walk, pos: map<Node, nat>, parent: Parents, depth: map<Node, nat>,
                   anc: map<Node, set<Node>>, ends: set<Node>)
    requires AtRest(g.outgoing, back, w, pos) && w.done == TouchedSet(g.outgoing, back)
    requires Indexed(g, w, pos, parent, depth, anc, ends, |w.order|)
    ensures Answers(g, back, w.cyclic, parent, ends)
  {
    hide Indexed, AtRest, ReachesEnd, ReachesCycle, IsImmediate, TouchedSet, Forward;
    AllPlaced(g, back, w, pos, parent, depth, anc, ends);
    forall n
      ensures n in w.cyclic <==> n in w.done && ReachesCycle(Forward(g.outgoing, back), n)
    {
      CyclicAnswer(g, back, w, pos, n);
    }
    forall n | n in parent
      ensures IsImmediate(Forward(g.outgoing, back), n, parent[n])
      ensures n in ends <==> ReachesEnd(Forward(g.outgoing, back), g, n)
    {
      TreeAnswer(g, back, w, pos, parent, depth, anc, ends, n);
    }
  }

  class JoinIndex {
    const g: Graph
    const back: set<Edge>
    var cyclic: set<Node>
    var ipdom: Parents
    var reachesEnd: set<Node>

    ghost predicate Valid()
      reads this
    {
      Answers(g, back, cyclic, ipdom, reachesEnd)
    }

    constructor (g: Graph, back: set<Edge>)
      ensures Valid() && this.g == g && this.back == back
    {
      this.g, this.back := g, back;
      var w, pos := WalkAll(g.outgoing, back);
      cyclic, ipdom, reachesEnd := w.cyclic, map[], {};
      new;
      Index(w, pos);
    }

    method Index(w: Walk, ghost pos: map<Node, nat>)
      requires AtRest(g.outgoing, back, w, pos) && w.done == TouchedSet(g.outgoing, back)
      requires cyclic == w.cyclic && ipdom == map[] && reachesEnd == {}
      modifies this
      ensures Valid()
    {
      hide Indexed, AtRest, TreeOk, Up, Common, CleanRank, Answers, TouchedSet;
      var depth: map<Node, nat> := map[];
      ghost var anc: map<Node, set<Node>> := map[];
      NothingIndexed(g, back, w, pos);
      for i := 0 to |w.order|
        invariant cyclic == w.cyclic
        invariant Indexed(g, w, pos, ipdom, depth, anc, reachesEnd, i)
      {
        var n := w.order[i];
        if n in cyclic {
          SkipIndexed(g, back, w, pos, ipdom, depth, anc, reachesEnd, i);
          continue;
        }
        TreeSoFar(g, back, w, pos, ipdom, depth, anc, reachesEnd, i);
        var succs := Outs(w.succ, n);
        var reaches := IsEnd(g, n) || exists m | m in succs :: m in reachesEnd;
        var meet := MeetSuccessors(succs, ipdom, depth, anc);
        PlaceIndexed(g, back, w, pos, ipdom, depth, anc, reachesEnd, i, meet, reaches);
        ipdom, anc := ipdom[n := meet], anc[n := {n} + Up(anc, meet)];
        depth := depth[n := DepthOf(depth, meet) + 1];
        reachesEnd := if reaches then reachesEnd + {n} else reachesEnd;
      }
      AllIndexed(g, back, w, pos, ipdom, depth, anc, reachesEnd);
    }

    method ReachesUnbrokenCycle(n: Node) returns (b: bool)
      requires Valid()
      ensures b <==> ReachesCycle(Forward(g.outgoing, back), n)
    {
      UntouchedReachesNoCycle(g.outgoing, back, n);
      b := n in cyclic;
    }

    /** The shared answer is the one the search below this split alone gives. */
    method Find(n: Node) returns (r: Option<Node>)
      requires Valid()
      ensures JoinOf(g.outgoing, back, n, r)
    {
      if n in cyclic {
        r := FindJoin(n, g.outgoing, back);
        return;
      }
      var count := ForwardCount(g.outgoing, back, n);
      if count < 2 {
        return None;
      }
      SharedJoin(g, back, cyclic, ipdom, reachesEnd, n);
      r := if n in ipdom then ipdom[n] else None;
    }

    /** Agrees with the search below n on every node the index walked; others read as not reaching one. */
    method ReachesEndEvent(n: Node) returns (b: bool)
      requires Valid()
      ensures b <==> Touched(g.outgoing, back, n) && ReachesEnd(Forward(g.outgoing, back), g, n)
    {
      TouchedIsSet(g.outgoing, back, n);
      if n in cyclic {
        b := SearchEndEvent(n, g, back);
        return;
      }
      b := n in reachesEnd;
    }
  }

  lemma UntouchedReachesNoCycle(G: Succ, back: set<Edge>, n: Node)
    ensures ReachesCycle(Forward(G, back), n) ==> n in TouchedSet(G, back)
  {
    var F := Forward(G, back);
    if ReachesCycle(F, n) && n !in G {
      var m :| Reaches(F, n, m) && OnCycle(F, m);
      if n != m {
        var k := ReachesFirst(F, n, m);
      }
    }
  }

  lemma SharedJoin(g: Graph, back: set<Edge>, cyclic: set<Node>, ipdom: Parents, ends: set<Node>, n: Node)
    requires Answers(g, back, cyclic, ipdom, ends) && n !in cyclic && |ForwardOuts(g.outgoing, back, n)| >= 2
    ensures n in ipdom && JoinOf(g.outgoing, back, n, ipdom[n])
  {
    assert n in TouchedSet(g.outgoing, back);
    hide TouchedSet, ReachesCycle, IsImmediate, ReachesEnd;
    JoinExact(g.outgoing, back, n, ipdom[n]);
  }

  // ----- the search below one node for an end event -----

  function EndVisitor(g: Graph, back: set<Edge>): D.Visitor<bool> {
    D.Visitor(
      (found: bool, v: Node) => var found' := found || IsEnd(g, v); (found', !found'),
      (found: bool, from: Node, to: Node, seen: bool) => (found, Edge(from, to) !in back && !found),
      (found: bool, v: Node) => found)
  }

  // Every forward flow the search has looked at leads to a scheduled node.
  ghost predicate Looked(G: Succ, back: set<Edge>, visited: set<Node>, f: D.Frame) {
    forall j :: 0 <= j < f.next && j < |Outs(G, f.node)| ==>
      Edge(f.node, Outs(G, f.node)[j]) in back || Outs(G, f.node)[j] in visited
  }

  ghost predicate Explored(g: Graph, back: set<Edge>, visited: set<Node>, n: Node) {
    !IsEnd(g, n) && forall v {:trigger HasEdge(g.outgoing, n, v)} :: HasEdge(g.outgoing, n, v) ==>
        Edge(n, v) in back || v in visited
  }

  ghost predicate SearchStack(g: Graph, back: set<Edge>, visited: set<Node>, st: D.Stack) {
    match st
    case Bottom => true
    case Push(f, below) =>
      && f.node in visited && (f.entered ==> !IsEnd(g, f.node)) && (!f.entered ==> f.next == 0)
      && Looked(g.outgoing, back, visited, f) && SearchStack(g, back, visited, below)
  }

  function StackNodes(st: D.Stack): set<Node> {
    match st
    case Bottom => {}
    case Push(f, below) => StackNodes(below) + {f.node}
  }

  // reach stands for what the start reaches; an end found lies in it.
  ghost predicate Seeking(g: Graph, back: set<Edge>, reach: set<Node>, start: Node, c: D.Config<bool>) {
    && c.visited <= reach && start in c.visited && StackNodes(c.stack) <= c.visited
    && (c.s ==> exists e :: e in reach && IsEnd(g, e))
    && (!c.s ==> SearchStack(g, back, c.visited, c.stack))
    && (!c.s ==> forall n :: n in c.visited && n !in StackNodes(c.stack) ==> Explored(g, back, c.visited, n))
  }

  lemma {:induction false} SearchStackGrows(g: Graph, back: set<Edge>, visited: set<Node>, visited': set<Node>,
                                            st: D.Stack)
    requires SearchStack(g, back, visited, st) && visited <= visited'
    ensures SearchStack(g, back, visited', st)
  {
    if st.Push? {
      SearchStackGrows(g, back, visited, visited', st.below);
    }
  }

  lemma SeekStarts(g: Graph, back: set<Edge>, reach: set<Node>, start: Node)
    requires start in reach
    ensures Seeking(g, back, reach, start, D.Start(false, start))
  {
    var st := D.Start(false, start).stack;
    assert StackNodes(st) == {start} && SearchStack(g, back, {start}, st.below);
  }

  lemma SeekEnters(g: Graph, back: set<Edge>, reach: set<Node>, start: Node, c: D.Config<bool>)
    requires Seeking(g, back, reach, start, c) && c.stack.Push? && !c.stack.top.entered
    ensures Seeking(g, back, reach, start, D.Enter(EndVisitor(g, back), c))
  {
    var f := c.stack.top;
    if c.s || IsEnd(g, f.node) {
      assert f.node in reach;
    }
  }

  lemma SeekAdvances(g: Graph, back: set<Edge>, reach: set<Node>, start: Node, c: D.Config<bool>)
    requires Seeking(g, back, reach, start, c) && c.stack.Push? && c.stack.top.entered
    requires Closed(Forward(g.outgoing, back), reach)
    ensures Seeking(g, back, reach, start, D.Advance(g.outgoing, EndVisitor(g, back), c))
  {
    var f := c.stack.top;
    var outs := Outs(g.outgoing, f.node);
    if f.next >= |outs| {
      if !c.s {
        forall v | HasEdge(g.outgoing, f.node, v)
          ensures Edge(f.node, v) in back || v in c.visited
        {
          var j :| 0 <= j < |outs| && outs[j] == v;
        }
      }
    } else if !c.s && Edge(f.node, outs[f.next]) !in back && outs[f.next] !in c.visited {
      assert HasEdge(Forward(g.outgoing, back), f.node, outs[f.next]);
      SearchStackGrows(g, back, c.visited, c.visited + {outs[f.next]}, c.stack);
    }
  }

  lemma Sought(g: Graph, back: set<Edge>, reach: set<Node>, start: Node, found: bool, visited: set<Node>)
    requires Seeking(g, back, reach, start, D.Config(found, visited, D.Bottom))
    requires forall n :: n in reach <==> Reaches(Forward(g.outgoing, back), start, n)
    ensures found <==> ReachesEnd(Forward(g.outgoing, back), g, start)
  {
    var F := Forward(g.outgoing, back);
    if !found && ReachesEnd(F, g, start) {
      var e :| Reaches(F, start, e) && IsEnd(g, e);
      forall u, v | u in visited && HasEdge(F, u, v)
        ensures v in visited
      {
        assert Explored(g, back, visited, u);
        assert HasEdge(g.outgoing, u, v);
      }
      ClosedReaches(F, visited, start, e);
    }
  }

  ghost function ForwardReach(G: Succ, back: set<Edge>, start: Node): set<Node> {
    {start} + set n | n in Targets(G) && Reaches(Forward(G, back), start, n)
  }

  lemma ForwardReachExact(G: Succ, back: set<Edge>, start: Node)
    ensures forall n :: n in ForwardReach(G, back, start) <==> Reaches(Forward(G, back), start, n)
    ensures Closed(Forward(G, back), ForwardReach(G, back, start))
  {
    var F := Forward(G, back);
    ReachesSelf(F, start);
    forall n | Reaches(F, start, n)
      ensures n in ForwardReach(G, back, start)
    {
      if n != start {
        var p :| PathBetween(F, p, start, n);
        LastStep(F, p);
        assert HasEdge(G, p[|p|-2], n) && p[|p|-2] in G && n in G[p[|p|-2]];
      }
    }
    forall u, v | u in ForwardReach(G, back, start) && HasEdge(F, u, v)
      ensures v in ForwardReach(G, back, start)
    {
      ReachesSnoc(F, start, u, v);
    }
  }

  lemma {:induction false} LastStep(S: Succ, p: seq<Node>)
    requires Path(S, p) && |p| > 1
    ensures HasEdge(S, p[|p|-2], p[|p|-1])
  {
    if |p| > 2 {
      LastStep(S, p[1..]);
    }
  }

  method SearchEndEvent(start: Node, g: Graph, back: set<Edge>) returns (found: bool)
    ensures found <==> ReachesEnd(Forward(g.outgoing, back), g, start)
  {
    ghost var reach := ForwardReach(g.outgoing, back, start);
    ForwardReachExact(g.outgoing, back, start);
    assert start in reach;
    hide ReachesEnd, ForwardReach, Reaches;
    SeekStarts(g, back, reach, start);
    ghost var inv := (c: D.Config<bool>) => Seeking(g, back, reach, start, c);
    forall c: D.Config<bool> | inv(c) && c.stack.Push?
      ensures !c.stack.top.entered ==> inv(D.Enter(EndVisitor(g, back), c))
      ensures c.stack.top.entered ==> inv(D.Advance(g.outgoing, EndVisitor(g, back), c))
    {
      if c.stack.top.entered {
        SeekAdvances(g, back, reach, start, c);
      } else {
        SeekEnters(g, back, reach, start, c);
      }
    }
    found := D.IterativeDFS(g.outgoing, start, EndVisitor(g, back), false, inv);
    ghost var visited :| inv(D.Config(found, visited, D.Bottom));
    Sought(g, back, reach, start, found, visited);
  }

  /**
   * The shared answer and the search below n differ exactly on an end event
   * that no forward flow enters and no flow leaves.
   */
  lemma SharedEndIffSearched(g: Graph, back: set<Edge>, n: Node)
    ensures (Touched(g.outgoing, back, n) && ReachesEnd(Forward(g.outgoing, back), g, n) <==>
            ReachesEnd(Forward(g.outgoing, back), g, n))
      <==> Touched(g.outgoing, back, n) || !IsEnd(g, n)
  {
    var F := Forward(g.outgoing, back);
    ReachesEndStep(F, g, n);
    if n !in g.outgoing {
      assert forall m :: !HasEdge(g.outgoing, n, m);
      assert forall m :: m in Outs(F, n) ==> HasEdge(F, n, m);
    }
  }
}

/**
 * Post-dominators of an acyclic graph: the definition by maximal paths, the
 * recursive sets, and the parent tree graph.go meets in (`commonAncestor`).
 */
module PostDominators {
  import opened Wrappers
  import opened Graphs

  // ----- the definition, by paths -----

  // A path from n that cannot be continued.
  ghost predicate MaxPath(S: Succ, p: seq<Node>, n: Node) {
    Path(S, p) && p[0] == n && Outs(S, p[|p|-1]) == []
  }

  // Every maximal path from n passes d.
  ghost predicate PostDominates(S: Succ, d: Node, n: Node) {
    forall p :: MaxPath(S, p, n) ==> d in p
  }

  // j is the nearest strict post-dominator of n; None when n has none but itself.
  ghost predicate IsImmediate(S: Succ, n: Node, j: Option<Node>) {
    match j
    case None => forall d :: PostDominates(S, d, n) ==> d == n
    case Some(j) =>
      && j != n && PostDominates(S, j, n)
      && forall d :: d != n && PostDominates(S, d, n) ==> PostDominates(S, d, j)
  }

  // ----- the sets, by recursion on a rank -----

  ghost predicate Below(rank: map<Node, nat>, ns: seq<Node>, bound: nat) {
    forall m :: m in ns ==> m in rank && rank[m] < bound
  }

  ghost function PD(S: Succ, rank: map<Node, nat>, n: Node): set<Node>
    requires Ranked(S, rank) && n in rank
    decreases rank[n] + 1, 0
  {
    assert forall m :: m in Outs(S, n) ==> HasEdge(S, n, m);
    {n} + Meet(S, rank, Outs(S, n), rank[n])
  }

  // What all of ns have in common, met from left to right.
  ghost function Meet(S: Succ, rank: map<Node, nat>, ns: seq<Node>, bound: nat): set<Node>
    requires Ranked(S, rank) && Below(rank, ns, bound)
    decreases bound, |ns|
  {
    if ns == [] then {}
    else if |ns| == 1 then PD(S, rank, ns[0])
    else Meet(S, rank, ns[..|ns|-1], bound) * PD(S, rank, ns[|ns|-1])
  }

  lemma {:induction false} MeetIsCommon(S: Succ, rank: map<Node, nat>, ns: seq<Node>, bound: nat, d: Node)
    requires Ranked(S, rank) && Below(rank, ns, bound) && ns != []
    ensures d in Meet(S, rank, ns, bound) <==> forall m :: m in ns ==> d in PD(S, rank, m)
  {
    var last := ns[|ns|-1];
    assert last in ns;
    if |ns| == 1 {
      assert forall m :: m in ns ==> m == last;
    } else {
      var init := ns[..|ns|-1];
      MeetIsCommon(S, rank, init, bound, d);
      assert ns == init + [last];
      assert forall m :: m in ns <==> m in init || m == last;
    }
  }

  lemma PDMeets(S: Succ, rank: map<Node, nat>, n: Node)
    requires Ranked(S, rank) && n in rank
    ensures Below(rank, Outs(S, n), rank[n])
    ensures PD(S, rank, n) == {n} + Meet(S, rank, Outs(S, n), rank[n])
  {
    assert forall m :: m in Outs(S, n) ==> HasEdge(S, n, m);
  }

  lemma InPD(S: Succ, rank: map<Node, nat>, n: Node, d: Node)
    requires Ranked(S, rank) && n in rank
    ensures forall m :: m in Outs(S, n) ==> m in rank
    ensures d in PD(S, rank, n) <==>
      d == n || (Outs(S, n) != [] && forall m :: m in Outs(S, n) ==> d in PD(S, rank, m))
  {
    forall m | m in Outs(S, n)
      ensures m in rank && rank[m] < rank[n]
    {
      assert HasEdge(S, n, m);
    }
    assert Below(rank, Outs(S, n), rank[n]);
    if Outs(S, n) != [] {
      MeetIsCommon(S, rank, Outs(S, n), rank[n], d);
    }
  }

  lemma {:induction false} PDRank(S: Succ, rank: map<Node, nat>, n: Node, d: Node)
    requires Ranked(S, rank) && n in rank && d in PD(S, rank, n)
    ensures d in rank && rank[d] <= rank[n] && (d != n ==> rank[d] < rank[n])
    decreases rank[n]
  {
    InPD(S, rank, n, d);
    if d != n {
      var m := Outs(S, n)[0];
      assert HasEdge(S, n, m) && m in Outs(S, n);
      PDRank(S, rank, m, d);
    }
  }

  // ----- the two agree -----

  lemma {:induction false} PDOnPath(S: Succ, rank: map<Node, nat>, n: Node, d: Node, p: seq<Node>)
    requires Ranked(S, rank) && n in rank && d in PD(S, rank, n) && MaxPath(S, p, n)
    ensures d in p
    decreases rank[n]
  {
    InPD(S, rank, n, d);
    if d != n {
      assert |p| > 1;
      assert HasEdge(S, n, p[1]) && p[1] in Outs(S, n);
      PDOnPath(S, rank, p[1], d, p[1..]);
    }
  }

  lemma {:induction false} AvoidingPath(S: Succ, rank: map<Node, nat>, n: Node, d: Node) returns (p: seq<Node>)
    requires Ranked(S, rank) && n in rank && d !in PD(S, rank, n)
    ensures MaxPath(S, p, n) && d !in p
    decreases rank[n]
  {
    InPD(S, rank, n, d);
    if Outs(S, n) == [] {
      p := [n];
    } else {
      var m :| m in Outs(S, n) && d !in PD(S, rank, m);
      assert HasEdge(S, n, m);
      var q := AvoidingPath(S, rank, m, d);
      p := [n] + q;
      assert p[1..] == q;
    }
  }

  lemma PDIffPostDominates(S: Succ, rank: map<Node, nat>, n: Node, d: Node)
    requires Ranked(S, rank) && n in rank
    ensures d in PD(S, rank, n) <==> PostDominates(S, d, n)
  {
    if d in PD(S, rank, n) {
      forall p | MaxPath(S, p, n)
        ensures d in p
      {
        PDOnPath(S, rank, n, d, p);
      }
    } else {
      var p := AvoidingPath(S, rank, n, d);
    }
  }

  // ----- the immediate one exists -----

  // The post-dominators of a node form a chain.
  lemma {:induction false} PDChain(S: Succ, rank: map<Node, nat>, n: Node, d: Node, e: Node)
    requires Ranked(S, rank) && n in rank && d in PD(S, rank, n) && e in PD(S, rank, n)
    requires d in rank && e in rank && rank[d] <= rank[e]
    ensures d in PD(S, rank, e)
    decreases rank[n]
  {
    InPD(S, rank, n, d);
    InPD(S, rank, n, e);
    if n != e {
      PDRank(S, rank, n, e);
      var m := Outs(S, n)[0];
      assert HasEdge(S, n, m) && m in Outs(S, n);
      PDChain(S, rank, m, d, e);
    }
  }

  lemma {:induction false} Highest(rank: map<Node, nat>, A: set<Node>) returns (j: Node)
    requires A != {} && A <= rank.Keys
    ensures j in A && forall d :: d in A ==> rank[d] <= rank[j]
  {
    j :| j in A;
    if A - {j} != {} {
      var k := Highest(rank, A - {j});
      if rank[k] > rank[j] {
        j := k;
      }
    }
  }

  lemma ImmediateExists(S: Succ, rank: map<Node, nat>, n: Node) returns (j: Option<Node>)
    requires Ranked(S, rank) && n in rank
    ensures IsImmediate(S, n, j)
  {
    hide PD;
    var A := PD(S, rank, n) - {n};
    forall d | d in PD(S, rank, n)
      ensures d in rank
    {
      PDRank(S, rank, n, d);
    }
    InPD(S, rank, n, n);
    assert forall d :: d in PD(S, rank, n) ==> d == n || d in A;
    if A == {} {
      j := None;
      forall d | PostDominates(S, d, n)
        ensures d == n
      {
        PDIffPostDominates(S, rank, n, d);
      }
    } else {
      var k := Highest(rank, A);
      j := Some(k);
      PDIffPostDominates(S, rank, n, k);
      forall d | d != n && PostDominates(S, d, n)
        ensures PostDominates(S, d, k)
      {
        PDIffPostDominates(S, rank, n, d);
        PDChain(S, rank, n, d, k);
        PDIffPostDominates(S, rank, k, d);
      }
    }
  }

  // ----- graphs that agree below a node -----

  lemma PostDominatesAgrees(S: Succ, F: Succ, R: set<Node>, d: Node, n: Node)
    requires Agree(S, F, R) && n in R
    ensures PostDominates(S, d, n) <==> PostDominates(F, d, n)
  {
    forall p
      ensures MaxPath(S, p, n) <==> MaxPath(F, p, n)
    {
      if p != [] && p[0] == n {
        PathAgrees(S, F, R, p);
      }
    }
  }

  lemma ImmediateAgrees(S: Succ, F: Succ, rank: map<Node, nat>, n: Node, j: Option<Node>)
    requires Agree(S, F, rank.Keys) && Ranked(S, rank) && n in rank
    ensures IsImmediate(S, n, j) <==> IsImmediate(F, n, j)
  {
    hide PostDominates;
    var R := rank.Keys;
    forall d
      ensures PostDominates(S, d, n) <==> PostDominates(F, d, n)
    {
      PostDominatesAgrees(S, F, R, d, n);
    }
    if j.Some? && PostDominates(S, j.value, n) {
      PDIffPostDominates(S, rank, n, j.value);
      PDRank(S, rank, n, j.value);
      forall d
        ensures PostDominates(S, d, j.value) <==> PostDominates(F, d, j.value)
      {
        PostDominatesAgrees(S, F, R, d, j.value);
      }
    }
  }

  // ----- the parent tree -----

  type Parents = map<Node, Option<Node>>

  // depth[""] is 0, and so is the depth of a node not yet placed.
  function DepthOf(depth: map<Node, nat>, a: Option<Node>): nat {
    if a.Some? && a.value in depth then depth[a.value] else 0
  }

  function ParentOf(parent: Parents, a: Option<Node>): Option<Node> {
    if a.Some? && a.value in parent then parent[a.value] else None
  }

  ghost predicate Placed(parent: Parents, a: Option<Node>) {
    a.Some? ==> a.value in parent
  }

  // The ancestors of a tree node, itself included; the virtual exit has none.
  ghost function Up(anc: map<Node, set<Node>>, a: Option<Node>): set<Node> {
    if a.Some? && a.value in anc then anc[a.value] else {}
  }

  ghost predicate LocalAt(parent: Parents, depth: map<Node, nat>, anc: map<Node, set<Node>>, n: Node)
    requires parent.Keys == depth.Keys == anc.Keys && n in parent
  {
    && Placed(parent, parent[n]) && n !in Up(anc, parent[n])
    && anc[n] == {n} + Up(anc, parent[n]) && depth[n] == DepthOf(depth, parent[n]) + 1
  }

  // anc[n] is the set of n's ancestors in the tree, n included, and depth[n] their number.
  ghost predicate Local(parent: Parents, depth: map<Node, nat>, anc: map<Node, set<Node>>) {
    && parent.Keys == depth.Keys == anc.Keys
    && forall n :: n in parent ==> LocalAt(parent, depth, anc, n)
  }

  // An ancestor's ancestors are ancestors, and a strict ancestor is less deep.
  ghost predicate Nested(depth: map<Node, nat>, anc: map<Node, set<Node>>) {
    && depth.Keys == anc.Keys
    && (forall b {:trigger anc[b]} :: b in anc ==> anc[b] <= anc.Keys)
    && forall a, b {:trigger anc[a], anc[b]} :: a in anc && b in anc && a in anc[b] ==>
         anc[a] <= anc[b] && (a != b ==> depth[a] < depth[b])
  }

  ghost predicate TreeOk(parent: Parents, depth: map<Node, nat>, anc: map<Node, set<Node>>) {
    Local(parent, depth, anc) && Nested(depth, anc)
  }

  // The deeper of two different tree nodes is no ancestor of the other.
  lemma DeeperIsNoAncestor(parent: Parents, depth: map<Node, nat>, anc: map<Node, set<Node>>, a: Option<Node>,
                           b: Option<Node>)
    requires TreeOk(parent, depth, anc) && a != b && Placed(parent, a) && Placed(parent, b)
    requires DepthOf(depth, a) >= DepthOf(depth, b)
    ensures a.Some? && a.value !in Up(anc, b)
  {
    if b.Some? {
      assert LocalAt(parent, depth, anc, b.value);
    }
  }

  lemma CommonFlips<T>(a: set<T>, b: set<T>)
    ensures a * b == b * a
  {
  }

  lemma CommonShrinks<T>(a: set<T>, m: set<T>, b: set<T>, x: T)
    requires a == {x} + m && x !in b
    ensures a * b == m * b
  {
  }

  // Replacing the deeper node by its parent loses no common ancestor.
  lemma StepUp(parent: Parents, depth: map<Node, nat>, anc: map<Node, set<Node>>, a: Option<Node>, b: Option<Node>)
    requires TreeOk(parent, depth, anc) && a != b && Placed(parent, a) && Placed(parent, b)
    requires DepthOf(depth, a) >= DepthOf(depth, b)
    ensures Placed(parent, ParentOf(parent, a)) && DepthOf(depth, ParentOf(parent, a)) < DepthOf(depth, a)
    ensures Up(anc, a) * Up(anc, b) == Up(anc, ParentOf(parent, a)) * Up(anc, b)
  {
    DeeperIsNoAncestor(parent, depth, anc, a, b);
    assert LocalAt(parent, depth, anc, a.value);
    CommonShrinks(Up(anc, a), Up(anc, parent[a.value]), Up(anc, b), a.value);
  }

  lemma StepUpRight(parent: Parents, depth: map<Node, nat>, anc: map<Node, set<Node>>, a: Option<Node>, b: Option<Node>)
    requires TreeOk(parent, depth, anc) && a != b && Placed(parent, a) && Placed(parent, b)
    requires DepthOf(depth, a) < DepthOf(depth, b)
    ensures Placed(parent, ParentOf(parent, b)) && DepthOf(depth, ParentOf(parent, b)) < DepthOf(depth, b)
    ensures Up(anc, a) * Up(anc, b) == Up(anc, a) * Up(anc, ParentOf(parent, b))
  {
    hide TreeOk;
    StepUp(parent, depth, anc, b, a);
    CommonFlips(Up(anc, a), Up(anc, b));
    CommonFlips(Up(anc, a), Up(anc, ParentOf(parent, b)));
  }

  /** Walks two tree nodes up, the deeper one first, until they meet. */
  method CommonAncestor(a0: Option<Node>, b0: Option<Node>, parent: Parents, depth: map<Node, nat>,
                        ghost anc: map<Node, set<Node>>) returns (a: Option<Node>)
    requires TreeOk(parent, depth, anc) && Placed(parent, a0) && Placed(parent, b0)
    ensures Placed(parent, a) && Up(anc, a) == Up(anc, a0) * Up(anc, b0)
  {
    hide TreeOk;
    a := a0;
    var b := b0;
    while a != b
      invariant Placed(parent, a) && Placed(parent, b)
      invariant Up(anc, a) * Up(anc, b) == Up(anc, a0) * Up(anc, b0)
      decreases DepthOf(depth, a) + DepthOf(depth, b)
    {
      if DepthOf(depth, a) >= DepthOf(depth, b) {
        StepUp(parent, depth, anc, a, b);
        a := ParentOf(parent, a);
      } else {
        StepUpRight(parent, depth, anc, a, b);
        b := ParentOf(parent, b);
      }
    }
  }

  lemma LocalGrows(parent: Parents, depth: map<Node, nat>, anc: map<Node, set<Node>>, n: Node, meet: Option<Node>)
    requires Local(parent, depth, anc) && n !in parent && Placed(parent, meet) && n !in Up(anc, meet)
    ensures Local(parent[n := meet], depth[n := DepthOf(depth, meet) + 1], anc[n := {n} + Up(anc, meet)])
  {
    var parent', depth', anc' := parent[n := meet], depth[n := DepthOf(depth, meet) + 1], anc[n := {n} + Up(anc, meet)];
    UpStays(depth, anc, n, meet, meet);
    assert LocalAt(parent', depth', anc', n);
    forall k {:trigger LocalAt(parent', depth', anc', k)} | k in parent && k != n
      ensures LocalAt(parent', depth', anc', k)
    {
      assert LocalAt(parent, depth, anc, k);
      LocalStays(parent, depth, anc, n, meet, k);
    }
  }

  // A new node changes nothing for those that hang elsewhere.
  lemma UpStays(depth: map<Node, nat>, anc: map<Node, set<Node>>, n: Node, meet: Option<Node>, a: Option<Node>)
    requires a != Some(n)
    ensures Up(anc[n := {n} + Up(anc, meet)], a) == Up(anc, a)
    ensures DepthOf(depth[n := DepthOf(depth, meet) + 1], a) == DepthOf(depth, a)
  {
  }

  lemma LocalStays(parent: Parents, depth: map<Node, nat>, anc: map<Node, set<Node>>, n: Node, meet: Option<Node>,
                   k: Node)
    requires parent.Keys == depth.Keys == anc.Keys && n !in parent && k in parent && LocalAt(parent, depth, anc, k)
    ensures LocalAt(parent[n := meet], depth[n := DepthOf(depth, meet) + 1], anc[n := {n} + Up(anc, meet)], k)
  {
    UpStays(depth, anc, n, meet, parent[k]);
    hide Up, DepthOf;
  }

  lemma NestedGrows(depth: map<Node, nat>, anc: map<Node, set<Node>>, n: Node, meet: Option<Node>)
    requires Nested(depth, anc) && n !in anc && (meet.Some? ==> meet.value in anc && meet.value in anc[meet.value])
    ensures n !in Up(anc, meet) && Nested(depth[n := DepthOf(depth, meet) + 1], anc[n := {n} + Up(anc, meet)])
  {
    if meet.Some? {
      var m := meet.value;
      forall a | a in anc && a in anc[m]
        ensures anc[a] <= anc[m] && depth[a] <= depth[m]
      {
      }
    }
  }

  // Hanging a new node below meet extends the tree.
  lemma TreeGrows(parent: Parents, depth: map<Node, nat>, anc: map<Node, set<Node>>, n: Node, meet: Option<Node>)
    requires TreeOk(parent, depth, anc) && n !in parent && Placed(parent, meet)
    ensures TreeOk(parent[n := meet], depth[n := DepthOf(depth, meet) + 1], anc[n := {n} + Up(anc, meet)])
  {
    assert meet.Some? ==> LocalAt(parent, depth, anc, meet.value);
    hide LocalAt;
    NestedGrows(depth, anc, n, meet);
    LocalGrows(parent, depth, anc, n, meet);
  }
}

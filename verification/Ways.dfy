/**
 * Where a traversal goes: the nodes each handler compiles next, and what lies
 * ahead of a node that way, up to a stop node.
 */
module Ways {
  import opened Wrappers
  import opened Graphs
  import opened PostDominators
  import opened Joins
  import opened Traversal
  import opened PathLanguage

  function First(ns: seq<Node>): seq<Node> {
    if ns == [] then [] else [ns[0]]
  }

  // The node compiled after the branches of a split.
  ghost function JoinAfter(p: Process, n: Node): seq<Node> {
    if |Nexts(p, n)| < 2 || JoinAt(p.g.outgoing, p.back, n).None? then []
    else [JoinAt(p.g.outgoing, p.back, n).value]
  }

  /** What n's handler compiles next. */
  ghost function Follows(p: Process, n: Node): seq<Node> {
    if n in p.skipped || n !in p.g.kind then Nexts(p, n)
    else
      match p.g.kind[n]
      case StartEvent => []
      case EndEvent => []
      case ErrorBoundaryEvent => []
      case TimerBoundaryEvent => First(Outs(p.g.outgoing, n))
      case MessageBoundaryEvent => First(Outs(p.g.outgoing, n))
      case BoundaryEvent => Nexts(p, n)
      case ParallelGateway => Nexts(p, n) + JoinAfter(p, n)
      case InclusiveGateway => Nexts(p, n) + JoinAfter(p, n)
      case ExclusiveGateway => Nexts(p, n) + JoinAfter(p, n)
      case _ => First(Nexts(p, n))
  }

  function Without(ns: seq<Node>, stop: Option<Node>): (r: seq<Node>)
    ensures forall m :: m in r <==> m in ns && stop != Some(m)
  {
    if ns == [] then []
    else (if stop == Some(ns[0]) then [] else [ns[0]]) + Without(ns[1..], stop)
  }

  // The graph of what is compiled next, without the ways into the stop node.
  ghost function Way(p: Process, stop: Option<Node>): Succ {
    map n | n in p.g.outgoing :: Without(Follows(p, n), stop)
  }

  /** m lies ahead of n, before the stop node. */
  ghost predicate Ahead(p: Process, n: Node, stop: Option<Node>, m: Node) {
    stop != Some(n) && Reaches(Way(p, stop), n, m)
  }

  // The rank drops along the flows kept, and a handler follows no other flows.
  ghost predicate Downhill(p: Process, rank: map<Node, nat>) {
    && Ranked(ForwardGraph(p), rank)
    && forall n, m :: n in rank && m in Follows(p, n) ==> m in Nexts(p, n) || m in JoinAfter(p, n)
  }

  lemma WayEdge(p: Process, stop: Option<Node>, n: Node, m: Node)
    ensures HasEdge(Way(p, stop), n, m) <==> m in Follows(p, n) && stop != Some(m)
  {
    hide JoinAt;
    assert n !in p.g.outgoing ==> Nexts(p, n) == [] && Outs(p.g.outgoing, n) == [];
  }

  lemma JoinIs(p: Process, rank: map<Node, nat>, n: Node)
    requires Ranked(ForwardGraph(p), rank) && n in rank && |Nexts(p, n)| >= 2
    ensures IsImmediate(ForwardGraph(p), n, JoinAt(p.g.outgoing, p.back, n))
  {
    hide IsImmediate, JoinOf, ReachesCycle, Ranked;
    RankedAcyclic(ForwardGraph(p), rank, n);
    JoinExact(p.g.outgoing, p.back, n, JoinAt(p.g.outgoing, p.back, n));
  }

  lemma FollowsRanked(p: Process, rank: map<Node, nat>, n: Node, m: Node)
    requires Downhill(p, rank) && n in rank && m in Follows(p, n)
    ensures m in rank && rank[m] < rank[n]
  {
    hide Follows, ForwardGraph, PostDominates, JoinAt, Nexts, Ranked;
    NextsRanked(p, rank, n);
    if m in JoinAfter(p, n) {
      JoinIs(p, rank, n);
      OnEveryRank(p, rank, m, n);
    }
  }

  lemma WayRanked(p: Process, rank: map<Node, nat>, stop: Option<Node>)
    requires Downhill(p, rank)
    ensures Ranked(Way(p, stop), rank)
  {
    hide Follows, Way, ForwardGraph, Downhill, HasEdge;
    forall u, v {:trigger HasEdge(Way(p, stop), u, v)} | u in rank && HasEdge(Way(p, stop), u, v)
      ensures v in rank && rank[v] < rank[u]
    {
      WayEdge(p, stop, u, v);
      FollowsRanked(p, rank, u, v);
    }
  }

  lemma AheadRank(p: Process, rank: map<Node, nat>, n: Node, stop: Option<Node>, m: Node)
    requires Downhill(p, rank) && n in rank && Ahead(p, n, stop, m)
    ensures m in rank && rank[m] <= rank[n] && (m != n ==> rank[m] < rank[n])
  {
    hide Way, Downhill, Ranked;
    WayRanked(p, rank, stop);
    RankedReaches(Way(p, stop), rank, n, m);
  }

  lemma AheadSelf(p: Process, n: Node, stop: Option<Node>)
    requires stop != Some(n)
    ensures Ahead(p, n, stop, n)
  {
    hide Way, Reaches;
    ReachesSelf(Way(p, stop), n);
  }

  /** What lies ahead of n is n and what lies ahead of the nodes compiled next. */
  lemma AheadOnward(p: Process, n: Node, stop: Option<Node>, m: Node)
    requires stop != Some(n)
    ensures Ahead(p, n, stop, m) <==> n == m || exists k :: k in Follows(p, n) && Ahead(p, k, stop, m)
  {
    hide Way, Reaches, Follows, HasEdge;
    if Ahead(p, n, stop, m) && n != m {
      var k := ReachesFirst(Way(p, stop), n, m);
      WayEdge(p, stop, n, k);
      assert Ahead(p, k, stop, m);
    }
    AheadSelf(p, n, stop);
    if k :| k in Follows(p, n) && Ahead(p, k, stop, m) {
      WayEdge(p, stop, n, k);
      ReachesStep(Way(p, stop), n, k, m);
    }
  }

  lemma AheadStep(p: Process, r: Node, n: Node, m: Node)
    requires Ahead(p, r, None, n) && m in Follows(p, n)
    ensures Ahead(p, r, None, m)
  {
    hide Follows, Way, HasEdge, Reaches;
    WayEdge(p, None, n, m);
    ReachesSnoc(Way(p, None), r, n, m);
  }

  // ----- splits -----

  // A node every forward path passes is on every path from what is compiled next.
  lemma OnEveryFollow(p: Process, rank: map<Node, nat>, j: Node, n: Node, m: Node)
    requires Downhill(p, rank) && n in rank && OnEveryPath(p, j, n) && j != n && m in Follows(p, n)
    ensures OnEveryPath(p, j, m)
  {
    hide JoinAt, ForwardGraph, PostDominates, Nexts, Follows, Ranked, Way;
    OnEveryNext(p, j, n);
    if m in JoinAfter(p, n) {
      JoinIs(p, rank, n);
    }
  }

  /** What lies ahead of a branch comes before its join. */
  lemma {:induction false} AheadAbove(p: Process, rank: map<Node, nat>, n: Node, j: Node, m: Node)
    requires Downhill(p, rank) && n in rank && OnEveryPath(p, j, n) && Ahead(p, n, Some(j), m)
    ensures OnEveryPath(p, j, m) && m in rank && j in rank && rank[j] < rank[m]
    decreases rank[n]
  {
    hide Way, Ranked, OnEveryPath, Follows, ForwardGraph;
    if n == m {
      OnEveryRank(p, rank, j, n);
    } else {
      AheadOnward(p, n, Some(j), m);
      var k :| k in Follows(p, n) && Ahead(p, k, Some(j), m);
      FollowsRanked(p, rank, n, k);
      OnEveryFollow(p, rank, j, n, k);
      AheadAbove(p, rank, k, j, m);
    }
  }

  // A stop node at or after the join is in no branch.
  lemma {:induction false} OtherStop(p: Process, rank: map<Node, nat>, n: Node, j: Node, stop: Option<Node>, m: Node)
    requires Downhill(p, rank) && n in rank && OnEveryPath(p, j, n) && Ahead(p, n, Some(j), m)
    requires j in rank && (stop.Some? ==> stop.value in rank && rank[stop.value] <= rank[j])
    ensures Ahead(p, n, stop, m)
    decreases rank[n]
  {
    hide Way, Downhill, OnEveryPath, Follows, ForwardGraph;
    AheadSelf(p, n, Some(j));
    AheadAbove(p, rank, n, j, n);
    if n == m {
      AheadSelf(p, n, stop);
    } else {
      AheadOnward(p, n, Some(j), m);
      var k :| k in Follows(p, n) && Ahead(p, k, Some(j), m);
      FollowsRanked(p, rank, n, k);
      OnEveryFollow(p, rank, j, n, k);
      OtherStop(p, rank, k, j, stop, m);
      AheadOnward(p, n, stop, m);
    }
  }

  // What is ahead of n is before j, or ahead of j.
  lemma {:induction false} BeforeOrAfter(p: Process, rank: map<Node, nat>, n: Node, j: Node, stop: Option<Node>,
                                         m: Node)
    requires Downhill(p, rank) && n in rank && Ahead(p, n, stop, m)
    ensures Ahead(p, n, Some(j), m) || Ahead(p, j, stop, m)
    decreases rank[n]
  {
    hide Way, Downhill, Follows, Reaches;
    if n != j {
      AheadSelf(p, n, Some(j));
      if n != m {
        AheadOnward(p, n, stop, m);
        var k :| k in Follows(p, n) && Ahead(p, k, stop, m);
        FollowsRanked(p, rank, n, k);
        BeforeOrAfter(p, rank, k, j, stop, m);
        AheadOnward(p, n, Some(j), m);
      }
    }
  }

  /** Ahead of a split are its branches up to the join, and what is ahead of the join. */
  lemma AheadOfSplit(p: Process, rank: map<Node, nat>, n: Node, stop: Option<Node>, j: Node, m: Node)
    requires Downhill(p, rank) && n in rank && stop != Some(n) && JoinAfter(p, n) == [j]
    requires stop.Some? ==> OnEveryPath(p, stop.value, n)
    requires Follows(p, n) == Nexts(p, n) + JoinAfter(p, n)
    ensures Ahead(p, n, stop, m) <==>
            n == m || (exists k :: k in Nexts(p, n) && Ahead(p, k, Some(j), m)) || Ahead(p, j, stop, m)
  {
    hide Ahead, OnEveryPath, Ranked, ForwardGraph, Nexts, JoinAt, Follows;
    assert j in JoinAfter(p, n);
    JoinOfSplit(p, rank, n, stop, j);
    AheadOnward(p, n, stop, m);
    assert j in Follows(p, n);
    if Ahead(p, n, stop, m) && n != m {
      var k :| k in Follows(p, n) && Ahead(p, k, stop, m);
      if k != j {
        FollowsRanked(p, rank, n, k);
        BeforeOrAfter(p, rank, k, j, stop, m);
      }
    }
    if k :| k in Nexts(p, n) && Ahead(p, k, Some(j), m) {
      assert k in Follows(p, n);
      FollowsRanked(p, rank, n, k);
      OtherStop(p, rank, k, j, stop, m);
    }
  }

  lemma JoinOfSplit(p: Process, rank: map<Node, nat>, n: Node, stop: Option<Node>, j: Node)
    requires Downhill(p, rank) && n in rank && stop != Some(n) && JoinAfter(p, n) == [j]
    requires stop.Some? ==> OnEveryPath(p, stop.value, n)
    ensures j in rank && rank[j] < rank[n] && OnEveryPath(p, j, n)
    ensures stop.Some? ==> stop.value in rank && rank[stop.value] <= rank[j] && OnEveryPath(p, stop.value, j)
    ensures forall k :: k in Nexts(p, n) ==> OnEveryPath(p, j, k)
  {
    hide PostDominates, Ranked, ForwardGraph, Nexts, JoinAt, Follows;
    JoinIs(p, rank, n);
    OnEveryRank(p, rank, j, n);
    OnEveryNext(p, j, n);
    if stop.Some? {
      OnEveryRank(p, rank, stop.value, j);
    }
  }

  /** Nothing ahead of a branch is ahead of its join. */
  lemma BranchNotAfter(p: Process, rank: map<Node, nat>, k: Node, j: Node, stop: Option<Node>, m: Node)
    requires Downhill(p, rank) && k in rank && OnEveryPath(p, j, k) && Ahead(p, k, Some(j), m)
    ensures !Ahead(p, j, stop, m)
  {
    hide Ahead, OnEveryPath, Downhill;
    AheadAbove(p, rank, k, j, m);
    if Ahead(p, j, stop, m) {
      AheadRank(p, rank, j, stop, m);
    }
  }

  /** What lies ahead is reached along forward flows. */
  lemma {:induction false} AheadReaches(p: Process, rank: map<Node, nat>, n: Node, stop: Option<Node>, m: Node)
    requires Downhill(p, rank) && n in rank && Ahead(p, n, stop, m)
    ensures Reaches(ForwardGraph(p), n, m)
    decreases rank[n]
  {
    hide Way, Ranked, OnEveryPath, Follows, ForwardGraph, Reaches, JoinAfter;
    if n == m {
      ReachesSelf(ForwardGraph(p), n);
    } else {
      AheadOnward(p, n, stop, m);
      var k :| k in Follows(p, n) && Ahead(p, k, stop, m);
      FollowsRanked(p, rank, n, k);
      FollowReaches(p, rank, n, k);
      AheadReaches(p, rank, k, stop, m);
      ReachesTrans(ForwardGraph(p), n, k, m);
    }
  }

  lemma FollowReaches(p: Process, rank: map<Node, nat>, n: Node, k: Node)
    requires Downhill(p, rank) && n in rank && k in Follows(p, n)
    ensures Reaches(ForwardGraph(p), n, k)
  {
    hide Ranked, Follows, ForwardGraph, Reaches, PostDominates, Nexts, JoinAt;
    if k in Nexts(p, n) {
      NextsAreEdges(p, n);
      ReachesEdge(ForwardGraph(p), n, k);
    } else {
      JoinIs(p, rank, n);
      LeadsThere(p, rank, k, n);
    }
  }
}

/**
 * Nodes that return at once where nothing is lost: a branch that comes to one
 * with no work ahead of it, short of the branch's stop node, misses nothing.
 */
module QuietEnds {
  import opened Wrappers
  import opened Graphs
  import opened Bpmn
  import opened PostDominators
  import opened Joins
  import opened Traversal
  import opened PathLanguage
  import opened PlanMeaning
  import opened EarlyEnds
  import opened Spine

  // x stands on the way from m, before the stop node.
  ghost predicate Inside(p: Process, x: Node, m: Node, stop: Option<Node>) {
    OnEveryPath(p, x, m) && (stop.Some? ==> stop.value != x && OnEveryPath(p, stop.value, x))
  }

  /** What returns at once on the way from m has a stop node after it and no work ahead up to there. */
  ghost predicate QuietWay(p: Process, bodies: Bodies, m: Node, stop: Option<Node>) {
    forall x :: Drops(p, x) && Inside(p, x, m, stop) ==> stop.Some? && !WorkAhead(p, bodies, x, stop)
  }

  // y comes before the last node looked at, if there is one.
  ghost predicate BeforeLast(p: Process, y: Node, last: Option<Node>) {
    last.Some? ==> y != last.value && Reaches(ForwardGraph(p), y, last.value)
  }

  /** So on the way of every branch, up to its join, of the splits ahead of n. */
  ghost predicate QuietBranches(p: Process, bodies: Bodies, n: Node, last: Option<Node>) {
    forall s, m {:trigger m in Nexts(p, s)} ::
      Reaches(ForwardGraph(p), n, s) && BeforeLast(p, s, last) && |Nexts(p, s)| >= 2 && m in Nexts(p, s) ==>
        QuietWay(p, bodies, m, JoinAt(p.g.outgoing, p.back, s))
  }

  /** Ahead of n nothing returns at once but inside branches that lose nothing by it. */
  ghost predicate QuietFrom(p: Process, bodies: Bodies, n: Node) {
    QuietWay(p, bodies, n, None) && QuietBranches(p, bodies, n, None)
  }

  // Every node ahead of n is compiled as it should be or returns at once.
  ghost predicate KeptOrDropped(p: Process, bodies: Bodies, n: Node, last: Option<Node>) {
    forall x :: Reaches(ForwardGraph(p), n, x) && BeforeLast(p, x, last) ==> SaneNode(p, bodies, x) || Drops(p, x)
  }

  /** Where no node ahead of n returns at once, nothing is lost. */
  lemma NothingDropsQuiet(p: Process, bodies: Bodies, rank: map<Node, nat>, n: Node)
    requires Ranked(ForwardGraph(p), rank) && n in rank
    requires forall x :: Reaches(ForwardGraph(p), n, x) ==> !Drops(p, x)
    ensures QuietFrom(p, bodies, n)
  {
    hide OnEveryPath, ForwardGraph, Nexts, Ranked, Reaches, Drops, WorkAhead, JoinAt;
    ReachesSelf(ForwardGraph(p), n);
    NoDropQuietWay(p, bodies, rank, n, n, None);
    forall s, m {:trigger m in Nexts(p, s)} | Reaches(ForwardGraph(p), n, s) && m in Nexts(p, s)
      ensures QuietWay(p, bodies, m, JoinAt(p.g.outgoing, p.back, s))
    {
      NextsAreEdges(p, s);
      ReachesSnoc(ForwardGraph(p), n, s, m);
      NoDropQuietWay(p, bodies, rank, n, m, JoinAt(p.g.outgoing, p.back, s));
    }
  }

  lemma NoDropQuietWay(p: Process, bodies: Bodies, rank: map<Node, nat>, n: Node, m: Node, stop: Option<Node>)
    requires Ranked(ForwardGraph(p), rank) && n in rank && Reaches(ForwardGraph(p), n, m)
    requires forall x :: Reaches(ForwardGraph(p), n, x) ==> !Drops(p, x)
    ensures QuietWay(p, bodies, m, stop)
  {
    hide OnEveryPath, ForwardGraph, Ranked, Reaches, Drops, WorkAhead;
    RankedReaches(ForwardGraph(p), rank, n, m);
    forall x | Inside(p, x, m, stop)
      ensures !Drops(p, x)
    {
      LeadsThere(p, rank, x, m);
      ReachesTrans(ForwardGraph(p), n, m, x);
    }
  }

  // ----- what is compiled is regular -----

  /**
   * What is compiled from n: every node of the way from `from` to the stop node,
   * and of the branches on it, is compiled as it should be or loses nothing.
   */
  lemma {:induction false} RegularFrom(p: Process, bodies: Bodies, rank: map<Node, nat>, entry: Node,
                                       last: Option<Node>, from: Node, stop: Option<Node>, n: Node)
    requires Ranked(ForwardGraph(p), rank) && n in rank && BodiesRanked(bodies)
    requires KeptOrDropped(p, bodies, entry, last) && QuietBranches(p, bodies, entry, last)
    requires QuietWay(p, bodies, from, stop) && Reaches(ForwardGraph(p), entry, n) && OnEveryPath(p, n, from)
    requires stop.Some? ==> OnEveryPath(p, stop.value, n)
    requires last.Some? ==> stop.Some? && Reaches(ForwardGraph(p), stop.value, last.value)
    ensures Regular(p, bodies, rank, n, stop)
    decreases rank[n], 1
  {
    hide OnEveryPath, ForwardGraph, Nexts, Ranked, Reaches, Drops, WorkAhead, SaneNode, BodiesRanked, PathLang, JoinAt,
         RegularOnward, QuietBranches;
    if stop != Some(n) {
      StopAfter(p, rank, last, stop, n);
      if Drops(p, n) {
        assert Inside(p, n, from, stop);
        PathEps(p, bodies, rank, n, stop);
      } else {
        OnwardFrom(p, bodies, rank, entry, last, from, stop, n);
      }
    }
  }

  lemma StopAfter(p: Process, rank: map<Node, nat>, last: Option<Node>, stop: Option<Node>, n: Node)
    requires Ranked(ForwardGraph(p), rank) && n in rank && stop != Some(n)
    requires stop.Some? ==> OnEveryPath(p, stop.value, n)
    requires last.Some? ==> stop.Some? && Reaches(ForwardGraph(p), stop.value, last.value)
    ensures BeforeLast(p, n, last)
  {
    hide OnEveryPath, ForwardGraph, Ranked, Reaches;
    if last.Some? {
      OnEveryRank(p, rank, stop.value, n);
      RankedReaches(ForwardGraph(p), rank, stop.value, last.value);
      LeadsThere(p, rank, stop.value, n);
      ReachesTrans(ForwardGraph(p), n, stop.value, last.value);
    }
  }

  lemma {:induction false} OnwardFrom(p: Process, bodies: Bodies, rank: map<Node, nat>, entry: Node,
                                      last: Option<Node>, from: Node, stop: Option<Node>, n: Node)
    requires Ranked(ForwardGraph(p), rank) && n in rank && BodiesRanked(bodies)
    requires KeptOrDropped(p, bodies, entry, last) && QuietBranches(p, bodies, entry, last)
    requires QuietWay(p, bodies, from, stop) && Reaches(ForwardGraph(p), entry, n) && OnEveryPath(p, n, from)
    requires stop.Some? ==> OnEveryPath(p, stop.value, n)
    requires last.Some? ==> stop.Some? && Reaches(ForwardGraph(p), stop.value, last.value)
    requires stop != Some(n) && BeforeLast(p, n, last)
    ensures RegularOnward(p, bodies, rank, n, stop)
    decreases rank[n], 0
  {
    hide OnEveryPath, ForwardGraph, Nexts, Ranked, Reaches, SaneNode, BodiesRanked, JoinAt, Regular, QuietBranches,
         KeptOrDropped, QuietWay, BeforeLast;
    NextsRanked(p, rank, n);
    if |Nexts(p, n)| < 2 {
      forall m | m in Nexts(p, n)
        ensures Regular(p, bodies, rank, m, stop)
      {
        StraightOn(p, rank, entry, from, stop, n, m);
        RegularFrom(p, bodies, rank, entry, last, from, stop, m);
      }
    } else {
      var join := JoinAt(p.g.outgoing, p.back, n);
      SplitOn(p, rank, entry, last, from, stop, n);
      forall m | m in Nexts(p, n)
        ensures Regular(p, bodies, rank, m, join)
      {
        BranchOn(p, bodies, rank, entry, last, stop, n, m);
        RegularFrom(p, bodies, rank, entry, last, m, join, m);
      }
      if join.Some? {
        RegularFrom(p, bodies, rank, entry, last, from, stop, join.value);
      }
    }
  }

  lemma StraightOn(p: Process, rank: map<Node, nat>, entry: Node, from: Node, stop: Option<Node>, n: Node, m: Node)
    requires Ranked(ForwardGraph(p), rank) && n in rank && |Nexts(p, n)| < 2 && m in Nexts(p, n) && stop != Some(n)
    requires Reaches(ForwardGraph(p), entry, n) && OnEveryPath(p, n, from)
    requires stop.Some? ==> OnEveryPath(p, stop.value, n)
    ensures Reaches(ForwardGraph(p), entry, m) && OnEveryPath(p, m, from)
    ensures stop.Some? ==> OnEveryPath(p, stop.value, m)
  {
    hide OnEveryPath, ForwardGraph, Nexts, Ranked, Reaches;
    NextsAreEdges(p, n);
    ReachesSnoc(ForwardGraph(p), entry, n, m);
    assert After(p, n) == Some(m);
    AfterMeets(p, rank, n);
    MeetsOn(p, from, n, m);
    if stop.Some? {
      OnEveryNext(p, stop.value, n);
    }
  }

  lemma JoinOfSplit(p: Process, rank: map<Node, nat>, n: Node)
    requires Ranked(ForwardGraph(p), rank) && n in rank && |Nexts(p, n)| >= 2
    ensures IsImmediate(ForwardGraph(p), n, JoinAt(p.g.outgoing, p.back, n))
  {
    hide IsImmediate, JoinOf, ReachesCycle, Ranked, JoinAt;
    RankedAcyclic(ForwardGraph(p), rank, n);
    JoinExact(p.g.outgoing, p.back, n, JoinAt(p.g.outgoing, p.back, n));
  }

  // The join of a split on the way is on the way; without one there is no stop node.
  lemma SplitOn(p: Process, rank: map<Node, nat>, entry: Node, last: Option<Node>, from: Node, stop: Option<Node>,
                n: Node)
    requires Ranked(ForwardGraph(p), rank) && n in rank && |Nexts(p, n)| >= 2 && stop != Some(n)
    requires Reaches(ForwardGraph(p), entry, n) && OnEveryPath(p, n, from)
    requires stop.Some? ==> OnEveryPath(p, stop.value, n)
    requires last.Some? ==> stop.Some? && Reaches(ForwardGraph(p), stop.value, last.value)
    ensures var join := JoinAt(p.g.outgoing, p.back, n);
            match join
            case None => stop.None?
            case Some(j) =>
              && j in rank && rank[j] < rank[n] && OnEveryPath(p, j, n) && j != n
              && Reaches(ForwardGraph(p), entry, j) && OnEveryPath(p, j, from)
              && (stop.Some? ==> OnEveryPath(p, stop.value, j))
              && (last.Some? ==> Reaches(ForwardGraph(p), j, last.value))
  {
    hide PostDominates, ForwardGraph, Nexts, Ranked, Reaches, JoinAt;
    JoinOfSplit(p, rank, n);
    var join := JoinAt(p.g.outgoing, p.back, n);
    if join.Some? {
      var j := join.value;
      OnEveryRank(p, rank, j, n);
      LeadsThere(p, rank, j, n);
      ReachesTrans(ForwardGraph(p), entry, n, j);
      MeetsOn(p, from, n, j);
      if last.Some? {
        LeadsThere(p, rank, stop.value, j);
        ReachesTrans(ForwardGraph(p), j, stop.value, last.value);
      }
    }
  }

  // A branch starts on a way of its own, up to the join.
  lemma BranchOn(p: Process, bodies: Bodies, rank: map<Node, nat>, entry: Node, last: Option<Node>,
                 stop: Option<Node>, n: Node, m: Node)
    requires QuietBranches(p, bodies, entry, last) && BeforeLast(p, n, last) && Reaches(ForwardGraph(p), entry, n)
    requires |Nexts(p, n)| >= 2 && m in Nexts(p, n)
    requires var join := JoinAt(p.g.outgoing, p.back, n); join.Some? ==>
             OnEveryPath(p, join.value, n) && join.value != n
    ensures var join := JoinAt(p.g.outgoing, p.back, n);
            && QuietWay(p, bodies, m, join) && Reaches(ForwardGraph(p), entry, m) && OnEveryPath(p, m, m)
            && (join.Some? ==> OnEveryPath(p, join.value, m))
  {
    HereOnPath(p, m);
    hide OnEveryPath, ForwardGraph, Nexts, Reaches, JoinAt, QuietWay, BeforeLast;
    NextsAreEdges(p, n);
    ReachesSnoc(ForwardGraph(p), entry, n, m);
    var join := JoinAt(p.g.outgoing, p.back, n);
    if join.Some? {
      OnEveryNext(p, join.value, n);
    }
  }

  /** Ahead of a quiet entry everything compiled is regular. */
  lemma QuietRegular(p: Process, bodies: Bodies, rank: map<Node, nat>, n: Node)
    requires Ranked(ForwardGraph(p), rank) && n in rank && BodiesRanked(bodies)
    requires KeptOrDropped(p, bodies, n, None) && QuietFrom(p, bodies, n)
    ensures Regular(p, bodies, rank, n, None)
  {
    HereOnPath(p, n);
    hide OnEveryPath, ForwardGraph, Ranked, Reaches, BodiesRanked, Regular, QuietBranches, KeptOrDropped, QuietWay;
    ReachesSelf(ForwardGraph(p), n);
    RegularFrom(p, bodies, rank, n, None, n, None, n);
  }

  // ----- the first loss -----

  /** Every path from n meets x, which returns at once, and nothing is lost on the way there. */
  ghost predicate FirstDrop(p: Process, bodies: Bodies, n: Node, x: Node) {
    Drops(p, x) && OnEveryPath(p, x, n) && NoneBefore(p, n, x) && QuietBranches(p, bodies, n, Some(x))
  }

  lemma WayToDrop(p: Process, bodies: Bodies, rank: map<Node, nat>, n: Node, x: Node)
    requires Ranked(ForwardGraph(p), rank) && n in rank && BodiesRanked(bodies)
    requires KeptOrDropped(p, bodies, n, Some(x)) && FirstDrop(p, bodies, n, x)
    ensures OnWay(Context(p, bodies, None, false), rank, n, x)
  {
    DropIsNoEnd(p, x);
    HereOnPath(p, n);
    hide OnEveryPath, ForwardGraph, Ranked, Reaches, BodiesRanked, Regular, QuietBranches, KeptOrDropped, Drops,
         WorkAhead;
    ReachesSelf(ForwardGraph(p), n);
    ReachesSelf(ForwardGraph(p), x);
    OnEveryRank(p, rank, x, n);
    RegularFrom(p, bodies, rank, n, Some(x), n, Some(x), n);
  }

  lemma DropIsNoEnd(p: Process, x: Node)
    requires Drops(p, x)
    ensures !IsEnd(p.g, x)
  {
    hide Nexts;
  }
}

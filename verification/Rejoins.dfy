/**
 * What a traversal comes to: all that lies ahead of where it starts, and when
 * the continuation of a boundary event counts as having come back to the main flow.
 */
module Rejoins {
  import opened Wrappers
  import opened Graphs
  import opened Bpmn
  import opened Plans
  import opened PostDominators
  import opened Traversal
  import opened PathLanguage
  import opened PlanMeaning
  import opened Ways
  import F = Failures

  predicate Splits(p: Process, n: Node) {
    n !in p.skipped && IsGateway(p, n) && |Nexts(p, n)| >= 2
  }

  // A node that may be met again without a word.
  ghost predicate Seen(p: Process, n: Node, stop: Option<Node>, visited: set<Node>) {
    exists m :: Ahead(p, n, stop, m) && !IsEnd(p.g, m) && m in visited
  }

  // Some node but an end event lies ahead of both.
  ghost predicate AheadOfBoth(p: Process, k: Node, l: Node, stop: Option<Node>) {
    exists m :: !IsEnd(p.g, m) && Ahead(p, k, stop, m) && Ahead(p, l, stop, m)
  }

  // So for two of the targets.
  ghost predicate Shared(p: Process, targets: seq<Node>, stop: Option<Node>) {
    exists i, j :: 0 <= i < j < |targets| && AheadOfBoth(p, targets[i], targets[j], stop)
  }

  // Two branches of the split s meet before its join, elsewhere than at an end event.
  ghost predicate Crosses(p: Process, s: Node) {
    Splits(p, s) && Shared(p, Nexts(p, s), JoinAt(p.g.outgoing, p.back, s))
  }

  ghost predicate Crossed(p: Process, n: Node, stop: Option<Node>) {
    exists s :: Ahead(p, n, stop, s) && Crosses(p, s)
  }

  /**
   * Going on from n a traversal comes to a node, other than an end event, that
   * was visited, or twice to one that was not.
   */
  ghost predicate ComesBack(p: Process, n: Node, stop: Option<Node>, visited: set<Node>) {
    Seen(p, n, stop, visited) || Crossed(p, n, stop)
  }

  // The rank drops; only gateways split and nothing follows an end event; no node of a body is ranked.
  ghost predicate Setting(p: Process, bodies: Bodies, rank: map<Node, nat>) {
    && Downhill(p, rank)
    && (forall n :: n in rank && |Follows(p, n)| >= 2 ==> Splits(p, n))
    && (forall n :: n in rank && IsEnd(p.g, n) ==> Follows(p, n) == [])
    && (forall k, m :: F.InBody(p, bodies, k, m) ==> m !in rank)
  }

  // The traversal of ctx can go on from n.
  ghost predicate Before(ctx: Context, rank: map<Node, nat>, n: Node) {
    n in rank && (ctx.stopAt.Some? ==> OnEveryPath(ctx.p, ctx.stopAt.value, n))
  }

  /**
   * From st to st' a traversal visits nothing but what lies ahead of n, and
   * unless it came back all of it, which compiles, n itself perhaps aside; and a
   * continuation comes back exactly when it had done so or does so ahead of n.
   */
  ghost predicate Came(ctx: Context, rank: map<Node, nat>, n: Node, st: State, st': State, whole: bool) {
    && st.sd.visited <= st'.sd.visited
    && (forall m :: m in st'.sd.visited && m in rank ==> m in st.sd.visited || Ahead(ctx.p, n, ctx.stopAt, m))
    && (!st'.loc.rejoined ==>
          forall m :: Ahead(ctx.p, n, ctx.stopAt, m) ==>
              m in st'.sd.visited && (whole || m != n ==> F.Compiles(ctx.p, ctx.bodies, m)))
    && (ctx.stopAtCompiled ==>
          (st'.loc.rejoined <==> st.loc.rejoined || ComesBack(ctx.p, n, ctx.stopAt, st.sd.visited)))
  }

  // ----- the same for several targets, one state after the other -----

  ghost predicate AheadOfSome(p: Process, targets: seq<Node>, stop: Option<Node>, m: Node) {
    exists k :: k in targets && Ahead(p, k, stop, m)
  }

  ghost predicate SomeComesBack(p: Process, targets: seq<Node>, stop: Option<Node>, visited: set<Node>) {
    (exists k :: k in targets && ComesBack(p, k, stop, visited)) || Shared(p, targets, stop)
  }

  ghost predicate CameAll(ctx: Context, rank: map<Node, nat>, targets: seq<Node>, stop: Option<Node>, st: State,
                          st': State) {
    && st.sd.visited <= st'.sd.visited
    && (forall m :: m in st'.sd.visited && m in rank ==>
          m in st.sd.visited || AheadOfSome(ctx.p, targets, stop, m))
    && (!st'.loc.rejoined ==>
          forall m :: AheadOfSome(ctx.p, targets, stop, m) ==>
              m in st'.sd.visited && F.Compiles(ctx.p, ctx.bodies, m))
    && (ctx.stopAtCompiled ==>
          (st'.loc.rejoined <==> st.loc.rejoined || SomeComesBack(ctx.p, targets, stop, st.sd.visited)))
  }

  // ----- one way on -----

  lemma NothingAhead(p: Process, n: Node, stop: Option<Node>, m: Node)
    requires stop != Some(n) && Follows(p, n) == []
    ensures Ahead(p, n, stop, m) <==> m == n
  {
    hide Ahead, Follows;
    AheadOnward(p, n, stop, m);
  }

  lemma OneAhead(p: Process, n: Node, stop: Option<Node>, k: Node, m: Node)
    requires stop != Some(n) && Follows(p, n) == [k]
    ensures Ahead(p, n, stop, m) <==> m == n || Ahead(p, k, stop, m)
  {
    hide Ahead, Follows;
    AheadOnward(p, n, stop, m);
  }

  lemma NotCrossing(p: Process, n: Node)
    requires |Follows(p, n)| <= 1
    ensures !Crosses(p, n)
  {
    hide Nexts, JoinAt, Shared;
  }

  // As seen from the ranked nodes n alone was visited.
  ghost predicate VisitedOne(rank: map<Node, nat>, n: Node, before: set<Node>, after: set<Node>) {
    before + {n} <= after && forall m :: m in after && m in rank ==> m in before || m == n
  }

  // A node whose handler goes nowhere.
  lemma CameNowhere(ctx: Context, rank: map<Node, nat>, n: Node, st: State, s: State)
    requires ctx.stopAt != Some(n) && Follows(ctx.p, n) == []
    requires VisitedOne(rank, n, st.sd.visited, s.sd.visited) && s.loc.rejoined == st.loc.rejoined
    requires ctx.stopAtCompiled ==> n !in st.sd.visited
    ensures Came(ctx, rank, n, st, s, false)
  {
    hide Ahead, Follows, Crosses;
    NotCrossing(ctx.p, n);
    forall m
      ensures Ahead(ctx.p, n, ctx.stopAt, m) <==> m == n
    {
      NothingAhead(ctx.p, n, ctx.stopAt, m);
    }
  }

  // What comes back ahead of n comes back ahead of the one node compiled next.
  lemma OneComesBack(p: Process, bodies: Bodies, rank: map<Node, nat>, n: Node, stop: Option<Node>, k: Node,
                     before: set<Node>, after: set<Node>)
    requires Setting(p, bodies, rank) && n in rank && stop != Some(n) && Follows(p, n) == [k] && n !in before
    requires VisitedOne(rank, n, before, after)
    ensures ComesBack(p, n, stop, before) <==> ComesBack(p, k, stop, after)
  {
    hide Ahead, Follows, Crosses, Downhill;
    NotCrossing(p, n);
    FollowsRanked(p, rank, n, k);
    forall m
      ensures Ahead(p, n, stop, m) <==> m == n || Ahead(p, k, stop, m)
      ensures Ahead(p, k, stop, m) ==> m != n && m in rank
    {
      OneAhead(p, n, stop, k, m);
      if Ahead(p, k, stop, m) {
        AheadRank(p, rank, k, stop, m);
      }
    }
  }

  lemma CameByOne(ctx: Context, rank: map<Node, nat>, n: Node, k: Node, st: State, s: State, st': State)
    requires Setting(ctx.p, ctx.bodies, rank) && n in rank && ctx.stopAt != Some(n) && Follows(ctx.p, n) == [k]
    requires VisitedOne(rank, n, st.sd.visited, s.sd.visited) && s.loc.rejoined == st.loc.rejoined
    requires ctx.stopAtCompiled ==> n !in st.sd.visited
    requires Came(ctx, rank, k, s, st', true)
    ensures Came(ctx, rank, n, st, st', false)
  {
    hide Ahead, Follows, Setting, ComesBack;
    forall m
      ensures Ahead(ctx.p, n, ctx.stopAt, m) <==> m == n || Ahead(ctx.p, k, ctx.stopAt, m)
    {
      OneAhead(ctx.p, n, ctx.stopAt, k, m);
    }
    if ctx.stopAtCompiled {
      OneComesBack(ctx.p, ctx.bodies, rank, n, ctx.stopAt, k, st.sd.visited, s.sd.visited);
    }
  }

  // ----- several ways on -----

  lemma CameNone(ctx: Context, rank: map<Node, nat>, stop: Option<Node>, st: State)
    ensures CameAll(ctx, rank, [], stop, st, st)
  {
    hide ComesBack;
  }

  // What was visited on the way along the first target is met again from another if it is ahead of both.
  lemma SharedSplit(p: Process, targets: seq<Node>, stop: Option<Node>)
    requires targets != []
    ensures Shared(p, targets, stop) <==>
              Shared(p, targets[1..], stop) || exists l :: l in targets[1..] && AheadOfBoth(p, targets[0], l, stop)
  {
    hide AheadOfBoth;
    var rest := targets[1..];
    if Shared(p, targets, stop) {
      var i, j :| 0 <= i < j < |targets| && AheadOfBoth(p, targets[i], targets[j], stop);
      assert targets[j] == rest[j - 1];
      assert i > 0 ==> targets[i] == rest[i - 1];
    }
    if Shared(p, rest, stop) {
      var i, j :| 0 <= i < j < |rest| && AheadOfBoth(p, rest[i], rest[j], stop);
      assert targets[i + 1] == rest[i] && targets[j + 1] == rest[j];
    }
    if l :| l in rest && AheadOfBoth(p, targets[0], l, stop) {
      var j :| 0 <= j < |rest| && rest[j] == l;
      assert targets[j + 1] == l;
    }
  }

  lemma SomeSplit(p: Process, targets: seq<Node>, stop: Option<Node>, m: Node)
    requires targets != []
    ensures AheadOfSome(p, targets, stop, m) <==>
              Ahead(p, targets[0], stop, m) || AheadOfSome(p, targets[1..], stop, m)
  {
    hide Ahead;
    assert targets == [targets[0]] + targets[1..];
  }

  // After the first target, what was visited or lay ahead of it is visited.
  lemma SomeComesBackSplit(p: Process, rank: map<Node, nat>, targets: seq<Node>, stop: Option<Node>,
                           before: set<Node>, after: set<Node>)
    requires Downhill(p, rank) && targets != [] && forall k :: k in targets ==> k in rank
    requires before <= after && forall m :: Ahead(p, targets[0], stop, m) ==> m in after
    requires forall m :: m in after && m in rank ==> m in before || Ahead(p, targets[0], stop, m)
    requires !ComesBack(p, targets[0], stop, before)
    ensures SomeComesBack(p, targets, stop, before) <==> SomeComesBack(p, targets[1..], stop, after)
  {
    hide Ahead, Downhill, Crossed, Shared;
    var rest := targets[1..];
    SharedSplit(p, targets, stop);
    assert targets == [targets[0]] + rest;
    if SomeComesBack(p, targets, stop, before) && !Shared(p, targets, stop) {
      var k :| k in targets && ComesBack(p, k, stop, before);
      assert k in rest;
      assert ComesBack(p, k, stop, after);
    }
    if m :| !IsEnd(p.g, m) && Ahead(p, targets[0], stop, m) && AheadOfSome(p, rest, stop, m) {
      var k :| k in rest && Ahead(p, k, stop, m);
      assert ComesBack(p, k, stop, after);
    }
    if k :| k in rest && ComesBack(p, k, stop, after) && !ComesBack(p, k, stop, before) {
      var m :| Ahead(p, k, stop, m) && !IsEnd(p.g, m) && m in after;
      AheadRank(p, rank, k, stop, m);
      assert AheadOfSome(p, rest, stop, m);
    }
  }

  lemma CameOneMore(ctx: Context, rank: map<Node, nat>, targets: seq<Node>, stop: Option<Node>, st: State, s: State,
                    st': State)
    requires Downhill(ctx.p, rank) && targets != [] && forall k :: k in targets ==> k in rank
    requires Came(ctx.(stopAt := stop), rank, targets[0], st, s, true) && CameAll(ctx, rank, targets[1..], stop, s, st')
    requires s.loc.rejoined ==> st'.loc.rejoined
    ensures CameAll(ctx, rank, targets, stop, st, st')
  {
    hide Ahead, Downhill, ComesBack, SomeComesBack, AheadOfSome;
    forall m
      ensures AheadOfSome(ctx.p, targets, stop, m) <==>
                Ahead(ctx.p, targets[0], stop, m) || AheadOfSome(ctx.p, targets[1..], stop, m)
    {
      SomeSplit(ctx.p, targets, stop, m);
    }
    if ctx.stopAtCompiled {
      if ComesBack(ctx.p, targets[0], stop, st.sd.visited) {
        FirstComesBack(ctx.p, targets, stop, st.sd.visited);
      } else if !s.loc.rejoined {
        SomeComesBackSplit(ctx.p, rank, targets, stop, st.sd.visited, s.sd.visited);
      }
    }
  }

  lemma FirstComesBack(p: Process, targets: seq<Node>, stop: Option<Node>, visited: set<Node>)
    requires targets != [] && ComesBack(p, targets[0], stop, visited)
    ensures SomeComesBack(p, targets, stop, visited)
  {
    hide ComesBack, Shared;
    assert targets[0] in targets;
  }

  // ----- a split that ends without its branches meeting -----

  lemma SomeOnward(p: Process, n: Node, stop: Option<Node>, m: Node)
    requires stop != Some(n)
    ensures Ahead(p, n, stop, m) <==> m == n || AheadOfSome(p, Follows(p, n), stop, m)
  {
    hide Ahead, Follows;
    AheadOnward(p, n, stop, m);
  }

  lemma CameApart(ctx: Context, rank: map<Node, nat>, n: Node, st: State, s: State, st': State)
    requires Setting(ctx.p, ctx.bodies, rank) && n in rank && ctx.stopAt == None && Splits(ctx.p, n)
    requires JoinAt(ctx.p.g.outgoing, ctx.p.back, n).None?
    requires VisitedOne(rank, n, st.sd.visited, s.sd.visited) && s.loc.rejoined == st.loc.rejoined
    requires ctx.stopAtCompiled ==> n !in st.sd.visited
    requires CameAll(ctx, rank, Nexts(ctx.p, n), None, s, st')
    ensures Came(ctx, rank, n, st, st', false)
  {
    hide Ahead, AheadOfSome, ComesBack, SomeComesBack, Setting, JoinAt, Nexts;
    assert Follows(ctx.p, n) == Nexts(ctx.p, n) by { assert JoinAfter(ctx.p, n) == []; }
    hide Follows;
    forall m
      ensures Ahead(ctx.p, n, None, m) <==> m == n || AheadOfSome(ctx.p, Nexts(ctx.p, n), None, m)
    {
      SomeOnward(ctx.p, n, None, m);
    }
    if ctx.stopAtCompiled {
      ComesBackApart(ctx.p, ctx.bodies, rank, n, st.sd.visited, s.sd.visited);
    }
  }

  lemma ComesBackApart(p: Process, bodies: Bodies, rank: map<Node, nat>, n: Node, before: set<Node>, after: set<Node>)
    requires Setting(p, bodies, rank) && n in rank && Splits(p, n) && JoinAt(p.g.outgoing, p.back, n).None?
    requires Follows(p, n) == Nexts(p, n) && n !in before && VisitedOne(rank, n, before, after)
    ensures ComesBack(p, n, None, before) <==> SomeComesBack(p, Nexts(p, n), None, after)
  {
    hide Ahead, JoinAt, Nexts, Splits, Follows, Shared, Downhill;
    var ks := Nexts(p, n);
    AheadSelf(p, n, None);
    forall m
      ensures Ahead(p, n, None, m) <==> m == n || AheadOfSome(p, ks, None, m)
      ensures AheadOfSome(p, ks, None, m) ==> m != n && m in rank
    {
      SomeOnward(p, n, None, m);
      if AheadOfSome(p, ks, None, m) {
        BelowNext(p, rank, n, None, m);
      }
    }
    assert Splits(p, n);
  }

  lemma BelowNext(p: Process, rank: map<Node, nat>, n: Node, stop: Option<Node>, m: Node)
    requires Downhill(p, rank) && n in rank && AheadOfSome(p, Nexts(p, n), stop, m)
    ensures m in rank && rank[m] < rank[n]
  {
    hide Ahead, Nexts, ForwardGraph, Ranked, Follows;
    var k :| k in Nexts(p, n) && Ahead(p, k, stop, m);
    NextsRanked(p, rank, n);
    AheadRank(p, rank, k, stop, m);
  }

  // ----- a split whose branches meet at a join -----

  lemma JoinedAhead(p: Process, rank: map<Node, nat>, n: Node, stop: Option<Node>, j: Node, m: Node)
    requires Downhill(p, rank) && n in rank && stop != Some(n) && Splits(p, n)
    requires JoinAt(p.g.outgoing, p.back, n) == Some(j) && (stop.Some? ==> OnEveryPath(p, stop.value, n))
    ensures Ahead(p, n, stop, m) <==>
              m == n || AheadOfSome(p, Nexts(p, n), Some(j), m) || Ahead(p, j, stop, m)
    ensures AheadOfSome(p, Nexts(p, n), Some(j), m) ==> !Ahead(p, j, stop, m) && m in rank && m != n
    ensures Ahead(p, j, stop, m) ==> m in rank && m != n
  {
    hide Ahead, Ranked, ForwardGraph, OnEveryPath, Nexts, JoinAt;
    assert JoinAfter(p, n) == [j];
    AheadOfSplit(p, rank, n, stop, j, m);
    JoinOfSplit(p, rank, n, stop, j);
    hide Follows;
    if AheadOfSome(p, Nexts(p, n), Some(j), m) {
      var k :| k in Nexts(p, n) && Ahead(p, k, Some(j), m);
      BelowNext(p, rank, n, Some(j), m);
      NextsRanked(p, rank, n);
      BranchNotAfter(p, rank, k, j, stop, m);
    }
    if Ahead(p, j, stop, m) {
      AheadRank(p, rank, j, stop, m);
    }
  }

  // Past the branches, the join has ahead of it nothing that they visited.
  lemma ComesBackJoined(p: Process, rank: map<Node, nat>, n: Node, stop: Option<Node>, j: Node, before: set<Node>,
                        at: set<Node>, after: set<Node>)
    requires Downhill(p, rank) && n in rank && stop != Some(n) && Splits(p, n) && n !in before
    requires JoinAt(p.g.outgoing, p.back, n) == Some(j) && (stop.Some? ==> OnEveryPath(p, stop.value, n))
    requires VisitedOne(rank, n, before, at) && at <= after
    requires forall m :: m in after && m in rank ==> m in at || AheadOfSome(p, Nexts(p, n), Some(j), m)
    ensures ComesBack(p, n, stop, before) <==>
              SomeComesBack(p, Nexts(p, n), Some(j), at) || ComesBack(p, j, stop, after)
  {
    hide Ahead, Downhill, Splits, JoinAt, Nexts, Shared, OnEveryPath;
    var ks := Nexts(p, n);
    AheadSelf(p, n, stop);
    forall m
      ensures Ahead(p, n, stop, m) <==> m == n || AheadOfSome(p, ks, Some(j), m) || Ahead(p, j, stop, m)
      ensures AheadOfSome(p, ks, Some(j), m) ==> !Ahead(p, j, stop, m) && m in rank && m != n
      ensures Ahead(p, j, stop, m) ==> m in rank && m != n
    {
      JoinedAhead(p, rank, n, stop, j, m);
    }
    assert Crosses(p, n) <==> Shared(p, ks, Some(j));
  }

  lemma CameJoined(ctx: Context, rank: map<Node, nat>, n: Node, j: Node, st: State, s: State, b: State, t: State,
                   st': State)
    requires Setting(ctx.p, ctx.bodies, rank) && n in rank && ctx.stopAt != Some(n) && Splits(ctx.p, n)
    requires JoinAt(ctx.p.g.outgoing, ctx.p.back, n) == Some(j)
    requires ctx.stopAt.Some? ==> OnEveryPath(ctx.p, ctx.stopAt.value, n)
    requires VisitedOne(rank, n, st.sd.visited, s.sd.visited) && s.loc.rejoined == st.loc.rejoined
    requires ctx.stopAtCompiled ==> n !in st.sd.visited
    requires CameAll(ctx, rank, Nexts(ctx.p, n), Some(j), s, b)
    requires t.sd.visited == b.sd.visited && t.loc.rejoined == b.loc.rejoined
    requires Came(ctx, rank, j, t, st', true) && (t.loc.rejoined ==> st'.loc.rejoined)
    ensures Came(ctx, rank, n, st, st', false)
  {
    hide Ahead, AheadOfSome, ComesBack, SomeComesBack, Downhill, JoinAt, Nexts, Splits, OnEveryPath;
    forall m
      ensures Ahead(ctx.p, n, ctx.stopAt, m) <==>
                m == n || AheadOfSome(ctx.p, Nexts(ctx.p, n), Some(j), m) || Ahead(ctx.p, j, ctx.stopAt, m)
    {
      JoinedAhead(ctx.p, rank, n, ctx.stopAt, j, m);
    }
    if ctx.stopAtCompiled {
      ComesBackJoined(ctx.p, rank, n, ctx.stopAt, j, st.sd.visited, s.sd.visited, b.sd.visited);
    }
  }

  // ----- over the traversal -----

  // In s, n is visited since st, and its handler is at work.
  ghost predicate At(ctx: Context, rank: map<Node, nat>, n: Node, st: State, s: State) {
    && Setting(ctx.p, ctx.bodies, rank) && Before(ctx, rank, n) && ctx.stopAt != Some(n)
    && VisitedFrom(s.loc, rank, n) && VisitedOne(rank, n, st.sd.visited, s.sd.visited)
    && s.loc.rejoined == st.loc.rejoined && (ctx.stopAtCompiled ==> n !in st.sd.visited)
  }

  // From n to a node compiled next; its own visits all lie before that node.
  lemma NextBefore(ctx: Context, rank: map<Node, nat>, n: Node, k: Node, st: State, s: State)
    requires At(ctx, rank, n, st, s) && k in Follows(ctx.p, n)
    ensures Before(ctx, rank, k) && rank[k] < rank[n] && VisitedAbove(s.loc, rank, k)
  {
    hide Downhill, Follows, OnEveryPath;
    FollowsRanked(ctx.p, rank, n, k);
    if ctx.stopAt.Some? {
      OnEveryFollow(ctx.p, rank, ctx.stopAt.value, n, k);
    }
  }

  lemma {:induction false} NodeComes(ctx: Context, rank: map<Node, nat>, st: State, n: Node)
    requires Setting(ctx.p, ctx.bodies, rank) && Before(ctx, rank, n) && VisitedAbove(st.loc, rank, n)
    ensures var r := TraverseNode(ctx, st, n); r.Done? ==> Came(ctx, rank, n, st, r.st, true)
    decreases rank[n], 9
  {
    hide Compile, Matched, Before, Setting, ComesBack;
    if ctx.stopAt == Some(n) {
      StopsHere(ctx, rank, n, st);
    } else if ctx.stopAtCompiled && n in st.sd.visited {
      MetAgain(ctx, rank, n, st);
    } else {
      var v := Visit(st, n);
      assert At(ctx, rank, n, st, v);
      hide Came, At;
      CompileComes(ctx, rank, st, v, n);
      if Compile(ctx, v, n).Done? {
        HereCompiles(ctx, v, n);
        CameHere(ctx, rank, n, st, Compile(ctx, v, n).st);
      }
    }
  }

  lemma HereCompiles(ctx: Context, st: State, n: Node)
    requires Compile(ctx, st, n).Done? && n in st.sd.visited
    ensures F.Compiles(ctx.p, ctx.bodies, n)
  {
    hide Compile, Matched, F.Compiles, F.Fares, F.Covers, Ahead;
    F.AheadCovers(ctx.p, n);
    AheadSelf(ctx.p, n, None);
    F.CompileFares(ctx, (iset m | Ahead(ctx.p, n, None, m)), st, n);
  }

  lemma CameHere(ctx: Context, rank: map<Node, nat>, n: Node, st: State, st': State)
    requires Came(ctx, rank, n, st, st', false) && F.Compiles(ctx.p, ctx.bodies, n)
    ensures Came(ctx, rank, n, st, st', true)
  {
    hide Ahead, ComesBack, F.Compiles;
  }

  lemma StopsHere(ctx: Context, rank: map<Node, nat>, n: Node, st: State)
    requires ctx.stopAt == Some(n)
    ensures Came(ctx, rank, n, st, st, true)
  {
    hide Crosses;
  }

  lemma MetAgain(ctx: Context, rank: map<Node, nat>, n: Node, st: State)
    requires Setting(ctx.p, ctx.bodies, rank) && n in rank && ctx.stopAt != Some(n)
    requires ctx.stopAtCompiled && n in st.sd.visited
    ensures Came(ctx, rank, n, st, if IsEnd(ctx.p.g, n) then st else State(st.sd, st.loc.(rejoined := true)), true)
  {
    hide Crosses, Ahead, Follows, Downhill, F.BodyCompiles;
    AheadSelf(ctx.p, n, ctx.stopAt);
    if IsEnd(ctx.p.g, n) {
      NotCrossing(ctx.p, n);
      forall m
        ensures Ahead(ctx.p, n, ctx.stopAt, m) <==> m == n
      {
        NothingAhead(ctx.p, n, ctx.stopAt, m);
      }
    }
  }

  lemma {:induction false} NextComes(ctx: Context, rank: map<Node, nat>, st: State, s: State, n: Node, k: Node)
    requires At(ctx, rank, n, st, s) && Follows(ctx.p, n) == [k]
    ensures var r := TraverseNode(ctx, s, k); r.Done? ==> Came(ctx, rank, n, st, r.st, false)
    decreases rank[n], 1
  {
    assert k in Follows(ctx.p, n);
    NextBefore(ctx, rank, n, k, st, s);
    hide TraverseNode, Matched, Before, Setting, Came, Follows, VisitedAbove, VisitedFrom;
    NodeComes(ctx, rank, s, k);
    if TraverseNode(ctx, s, k).Done? {
      CameByOne(ctx, rank, n, k, st, s, TraverseNode(ctx, s, k).st);
    }
  }

  lemma HereOnly(ctx: Context, rank: map<Node, nat>, st: State, s: State, n: Node)
    requires At(ctx, rank, n, st, s) && Follows(ctx.p, n) == []
    ensures Came(ctx, rank, n, st, s, false)
  {
    hide Setting, Came, Follows;
    CameNowhere(ctx, rank, n, st, s);
  }

  lemma {:induction false} FirstComes(ctx: Context, rank: map<Node, nat>, st: State, s: State, n: Node)
    requires At(ctx, rank, n, st, s) && Follows(ctx.p, n) == First(Nexts(ctx.p, n))
    ensures var r := TraverseFirst(ctx, s, n); r.Done? ==> Came(ctx, rank, n, st, r.st, false)
    decreases rank[n], 2
  {
    hide TraverseNode, Matched, At, Came, Follows, Nexts;
    if Nexts(ctx.p, n) == [] {
      HereOnly(ctx, rank, st, s, n);
    } else {
      NextComes(ctx, rank, st, s, n, Nexts(ctx.p, n)[0]);
    }
  }

  lemma {:induction false} TargetComes(ctx: Context, rank: map<Node, nat>, st: State, s: State, n: Node)
    requires At(ctx, rank, n, st, s) && Follows(ctx.p, n) == First(Outs(ctx.p.g.outgoing, n))
    ensures var r := TraverseTarget(ctx, s, n); r.Done? ==> Came(ctx, rank, n, st, r.st, false)
    decreases rank[n], 2
  {
    hide TraverseNode, Matched, At, Came, Follows;
    if FirstTarget(ctx.p, n).None? {
      HereOnly(ctx, rank, st, s, n);
    } else {
      NextComes(ctx, rank, st, s, n, FirstTarget(ctx.p, n).value);
    }
  }

  lemma {:induction false} AllComes(ctx: Context, rank: map<Node, nat>, st: State, s: State, n: Node)
    requires At(ctx, rank, n, st, s) && Follows(ctx.p, n) == Nexts(ctx.p, n) && |Nexts(ctx.p, n)| <= 1
    ensures var r := TraverseAll(ctx, s, Nexts(ctx.p, n)); r.Done? ==> Came(ctx, rank, n, st, r.st, false)
    decreases rank[n], 2
  {
    hide TraverseNode, Matched, At, Came, Follows, Nexts;
    if Nexts(ctx.p, n) == [] {
      HereOnly(ctx, rank, st, s, n);
    } else {
      assert Nexts(ctx.p, n)[1..] == [];
      NextComes(ctx, rank, st, s, n, Nexts(ctx.p, n)[0]);
    }
  }

  lemma AtTask(ctx: Context, rank: map<Node, nat>, st: State, s: State, n: Node)
    requires At(ctx, rank, n, st, s)
    ensures At(ctx, rank, n, st, AddTask(ctx.p, s, n))
  {
    hide AddTask, Setting, Before;
    AddTaskCounts(ctx.p, s, n);
  }

  lemma AtFlushed(ctx: Context, rank: map<Node, nat>, st: State, s: State, n: Node)
    requires At(ctx, rank, n, st, s)
    ensures At(ctx, rank, n, st, Flush(s))
  {
    hide Setting, Before;
  }

  lemma AtStep(ctx: Context, rank: map<Node, nat>, st: State, s: State, n: Node, step: Step)
    requires At(ctx, rank, n, st, s)
    ensures At(ctx, rank, n, st, AddStep(s, step))
  {
    hide Setting, Before;
  }

  lemma {:induction false} TaskComes(ctx: Context, rank: map<Node, nat>, st: State, s: State, n: Node)
    requires At(ctx, rank, n, st, s) && Follows(ctx.p, n) == First(Nexts(ctx.p, n))
    ensures var r := TraverseFirst(ctx, AddTask(ctx.p, s, n), n); r.Done? ==> Came(ctx, rank, n, st, r.st, false)
    decreases rank[n], 3
  {
    hide TraverseFirst, Matched, At, Came, Follows, Nexts, AddTask;
    AtTask(ctx, rank, st, s, n);
    FirstComes(ctx, rank, st, AddTask(ctx.p, s, n), n);
  }

  // Only a gateway has several ways on.
  lemma NotMany(ctx: Context, rank: map<Node, nat>, st: State, s: State, n: Node)
    requires At(ctx, rank, n, st, s) && Follows(ctx.p, n) == Nexts(ctx.p, n) && !Splits(ctx.p, n)
    ensures |Nexts(ctx.p, n)| <= 1
  {
    hide Downhill, Nexts, Follows, Splits;
  }

  lemma {:induction false} CompileComes(ctx: Context, rank: map<Node, nat>, st: State, s: State, n: Node)
    requires At(ctx, rank, n, st, s)
    ensures var r := Compile(ctx, s, n); r.Done? ==> Came(ctx, rank, n, st, r.st, false)
    decreases rank[n], 8
  {
    hide Matched, At, Came, Nexts, AddTask, TraverseFirst, TraverseAll, TraverseTarget, HandleGateway,
         CompileSubProcess, CompileCall, Flush, First, JoinAfter;
    if n in ctx.p.skipped || n !in ctx.p.g.kind || ctx.p.g.kind[n] == BoundaryEvent {
      NotMany(ctx, rank, st, s, n);
      AllComes(ctx, rank, st, s, n);
    } else {
      match ctx.p.g.kind[n]
      case StartEvent => HereOnly(ctx, rank, st, s, n);
      case EndEvent =>
        AtFlushed(ctx, rank, st, s, n);
        HereOnly(ctx, rank, st, Flush(s), n);
      case UserTask => TaskComes(ctx, rank, st, s, n);
      case SendTask => TaskComes(ctx, rank, st, s, n);
      case ReceiveTask => TaskComes(ctx, rank, st, s, n);
      case ParallelGateway => GatewayComes(ctx, rank, st, s, n, false);
      case InclusiveGateway => GatewayComes(ctx, rank, st, s, n, false);
      case ExclusiveGateway => GatewayComes(ctx, rank, st, s, n, true);
      case SubProcess => SubProcessComes(ctx, rank, st, s, n);
      case CallActivity => CallComes(ctx, rank, st, s, n);
      case TimerBoundaryEvent => TargetComes(ctx, rank, st, s, n);
      case MessageBoundaryEvent => TargetComes(ctx, rank, st, s, n);
      case ErrorBoundaryEvent => HereOnly(ctx, rank, st, s, n);
    }
  }

  lemma {:induction false} GatewayComes(ctx: Context, rank: map<Node, nat>, st: State, s: State, n: Node,
                                        exclusive: bool)
    requires At(ctx, rank, n, st, s) && n !in ctx.p.skipped && IsGateway(ctx.p, n)
    ensures var r := HandleGateway(ctx, s, n, exclusive); r.Done? ==> Came(ctx, rank, n, st, r.st, false)
    decreases rank[n], 7
  {
    var fwd := Nexts(ctx.p, n);
    if |fwd| <= 1 {
      assert Follows(ctx.p, n) == First(fwd);
    }
    hide Matched, At, Came, Nexts, TraverseFirst, SingleForward, SplitNoJoin, SplitWithJoin, Flush, First, JoinAt,
         Follows, Reverts;
    AtFlushed(ctx, rank, st, s, n);
    var reverts := RevertsOf(ctx.p, n);
    if |fwd| <= 1 && reverts == [] {
      FirstComes(ctx, rank, st, s, n);
    } else if |fwd| <= 1 {
      SingleComes(ctx, rank, st, Flush(s), n, fwd, reverts);
    } else if JoinAt(ctx.p.g.outgoing, ctx.p.back, n).None? {
      ApartComes(ctx, rank, st, Flush(s), n, fwd, reverts, exclusive);
    } else {
      JoinedComes(ctx, rank, st, Flush(s), n, fwd, reverts, JoinAt(ctx.p.g.outgoing, ctx.p.back, n).value, exclusive);
    }
  }

  lemma {:induction false} SingleComes(ctx: Context, rank: map<Node, nat>, st: State, s: State, n: Node,
                                       fwd: seq<Node>, reverts: seq<Branch>)
    requires At(ctx, rank, n, st, s) && fwd == Nexts(ctx.p, n) && |fwd| <= 1 && Follows(ctx.p, n) == First(fwd)
    ensures var r := SingleForward(ctx, s, n, fwd, reverts); r.Done? ==> Came(ctx, rank, n, st, r.st, false)
    decreases rank[n], 3
  {
    hide Matched, At, Came, Nexts, TraverseNode, Follows, AddStep, IsEnd;
    if fwd == [] {
      AtStep(ctx, rank, st, s, n, Gateway([], reverts));
      HereOnly(ctx, rank, st, AddStep(s, Gateway([], reverts)), n);
    } else {
      var step := Gateway([], [Onward(Edge(n, fwd[0]), [], IsEnd(ctx.p.g, fwd[0]))] + reverts);
      AtStep(ctx, rank, st, s, n, step);
      NextComes(ctx, rank, st, AddStep(s, step), n, fwd[0]);
    }
  }

  // The branches of n start below it, each before the stop node.
  ghost predicate Started(p: Process, rank: map<Node, nat>, starts: seq<Node>, stop: Option<Node>, bound: nat) {
    forall k :: k in starts ==> k in rank && rank[k] < bound && (stop.Some? ==> OnEveryPath(p, stop.value, k))
  }

  lemma {:induction false} BranchesCome(ctx: Context, rank: map<Node, nat>, st: State, n: Node, starts: seq<Node>,
                                        stop: Option<Node>, terminates: bool, bound: nat)
    requires Setting(ctx.p, ctx.bodies, rank) && Started(ctx.p, rank, starts, stop, bound)
    ensures var r := Branches(ctx, st, n, starts, stop, terminates);
            r.Branched? ==> CameAll(ctx, rank, starts, stop, st, r.st) && r.st.loc.visited == st.loc.visited
    decreases bound, 5, |starts|
  {
    hide BranchSteps, Matched, Setting, OnEveryPath;
    if starts == [] {
      CameNone(ctx, rank, stop, st);
    } else {
      var one := BranchSteps(ctx, st, starts[0], stop);
      assert starts[0] in starts;
      BranchComes(ctx, rank, st, starts[0], stop, bound);
      if one.SubDone? {
        BranchesCome(ctx, rank, one.st, n, starts[1..], stop, terminates, bound);
        var rest := Branches(ctx, one.st, n, starts[1..], stop, terminates);
        if rest.Branched? {
          assert Downhill(ctx.p, rank) by { SettingDownhill(ctx, rank); }
          hide Came, CameAll, Downhill;
          CameOneMore(ctx, rank, starts, stop, st, one.st, rest.st);
        }
      }
    }
  }

  lemma SettingDownhill(ctx: Context, rank: map<Node, nat>)
    requires Setting(ctx.p, ctx.bodies, rank)
    ensures Downhill(ctx.p, rank)
  {
  }

  lemma {:induction false} BranchComes(ctx: Context, rank: map<Node, nat>, st: State, start: Node,
                                       stop: Option<Node>, bound: nat)
    requires Setting(ctx.p, ctx.bodies, rank) && start in rank && rank[start] < bound
    requires stop.Some? ==> OnEveryPath(ctx.p, stop.value, start)
    ensures var r := BranchSteps(ctx, st, start, stop);
            r.SubDone? ==> Came(ctx.(stopAt := stop), rank, start, st, r.st, true) && r.st.loc.visited == st.loc.visited
    decreases bound, 4
  {
    hide TraverseNode, Matched, Setting, OnEveryPath, ComesBack, Ahead;
    var sub := State(st.sd, Fresh(st.loc.rejoined));
    NodeComes(ctx.(stopAt := stop), rank, sub, start);
  }

  // A split inside a branch has its join at or before the branch's stop node.
  lemma SplitStarts(ctx: Context, rank: map<Node, nat>, st: State, s: State, n: Node)
    requires At(ctx, rank, n, st, s) && Splits(ctx.p, n) && IsGateway(ctx.p, n)
    ensures var join := JoinAt(ctx.p.g.outgoing, ctx.p.back, n);
            && Started(ctx.p, rank, Nexts(ctx.p, n), join, rank[n])
            && (join.None? ==> ctx.stopAt == None)
            && (join.Some? ==> Before(ctx, rank, join.value) && rank[join.value] < rank[n])
  {
    hide PostDominates, Ranked, ForwardGraph, Nexts, JoinAt, Follows;
    NextsRanked(ctx.p, rank, n);
    var join := JoinAt(ctx.p.g.outgoing, ctx.p.back, n);
    if join.None? {
      JoinIs(ctx.p, rank, n);
    } else {
      JoinOfSplit(ctx.p, rank, n, ctx.stopAt, join.value);
    }
  }

  lemma {:induction false} ApartComes(ctx: Context, rank: map<Node, nat>, st: State, s: State, n: Node,
                                      fwd: seq<Node>, reverts: seq<Branch>, exclusive: bool)
    requires At(ctx, rank, n, st, s) && fwd == Nexts(ctx.p, n) && Splits(ctx.p, n) && IsGateway(ctx.p, n)
    requires JoinAt(ctx.p.g.outgoing, ctx.p.back, n).None?
    ensures var r := SplitNoJoin(ctx, s, n, fwd, reverts, exclusive); r.Done? ==> Came(ctx, rank, n, st, r.st, false)
    decreases rank[n], 6
  {
    hide Matched, Nexts, Branches, JoinAt, Started, Setting, ComesBack, SomeComesBack;
    SplitStarts(ctx, rank, st, s, n);
    if exclusive {
      BranchesCome(ctx, rank, s, n, fwd, None, true, rank[n]);
      var r := Branches(ctx, s, n, fwd, None, true);
      if r.Branched? {
        StepLooksOn(ctx, rank, fwd, None, s, r.st, Gateway([], r.branches + reverts));
        hide CameAll, Came;
        CameOfApart(ctx, rank, n, st, s, AddStep(r.st, Gateway([], r.branches + reverts)));
      }
    }
  }

  lemma StepLooksOn(ctx: Context, rank: map<Node, nat>, targets: seq<Node>, stop: Option<Node>, s: State, b: State,
                    step: Step)
    requires CameAll(ctx, rank, targets, stop, s, b)
    ensures CameAll(ctx, rank, targets, stop, s, AddStep(b, step))
  {
    hide AheadOfSome, SomeComesBack;
  }

  lemma CameOfApart(ctx: Context, rank: map<Node, nat>, n: Node, st: State, s: State, st': State)
    requires At(ctx, rank, n, st, s) && Splits(ctx.p, n) && ctx.stopAt == None
    requires JoinAt(ctx.p.g.outgoing, ctx.p.back, n).None? && CameAll(ctx, rank, Nexts(ctx.p, n), None, s, st')
    ensures Came(ctx, rank, n, st, st', false)
  {
    hide CameAll, Came, Setting, Splits, JoinAt;
    CameApart(ctx, rank, n, st, s, st');
  }

  lemma {:induction false} JoinedComes(ctx: Context, rank: map<Node, nat>, st: State, s: State, n: Node,
                                       fwd: seq<Node>, reverts: seq<Branch>, join: Node, exclusive: bool)
    requires At(ctx, rank, n, st, s) && fwd == Nexts(ctx.p, n) && Splits(ctx.p, n) && IsGateway(ctx.p, n)
    requires JoinAt(ctx.p.g.outgoing, ctx.p.back, n) == Some(join)
    ensures var r := SplitWithJoin(ctx, s, n, fwd, reverts, join, exclusive);
            r.Done? ==> Came(ctx, rank, n, st, r.st, false)
    decreases rank[n], 6
  {
    hide Matched, Nexts, Branches, JoinAt, Started, Setting, ComesBack, SomeComesBack, CameAll, Came, TraverseNode;
    SplitStarts(ctx, rank, st, s, n);
    BranchesCome(ctx, rank, s, n, fwd, Some(join), false, rank[n]);
    var b := Branches(ctx, s, n, fwd, Some(join), false);
    if b.Branched? {
      var step := if exclusive then Gateway([], b.branches + reverts) else Gateway(b.branches, reverts);
      var t := AddStep(b.st, step);
      NodeComes(ctx, rank, t, join);
      var r := TraverseNode(ctx, t, join);
      if r.Done? {
        CameOfJoined(ctx, rank, n, join, st, s, b.st, t, r.st);
      }
    }
  }

  lemma CameOfJoined(ctx: Context, rank: map<Node, nat>, n: Node, j: Node, st: State, s: State, b: State, t: State,
                     st': State)
    requires At(ctx, rank, n, st, s) && Splits(ctx.p, n) && JoinAt(ctx.p.g.outgoing, ctx.p.back, n) == Some(j)
    requires CameAll(ctx, rank, Nexts(ctx.p, n), Some(j), s, b)
    requires t.sd.visited == b.sd.visited && t.loc.rejoined == b.loc.rejoined
    requires Came(ctx, rank, j, t, st', true) && (t.loc.rejoined ==> st'.loc.rejoined)
    ensures Came(ctx, rank, n, st, st', false)
  {
    hide CameAll, Came, Setting, Splits, JoinAt;
    CameJoined(ctx, rank, n, j, st, s, b, t, st');
  }

  // ----- sub-processes and calls -----

  // A body visits its own nodes only.
  lemma AtAfterBody(ctx: Context, rank: map<Node, nat>, st: State, s: State, n: Node)
    requires At(ctx, rank, n, st, s) && n in ctx.bodies && n !in ctx.p.skipped && HasKind(ctx.p.g, n, SubProcess)
    ensures var b := RunBody(ctx, s, n); b.SubDone? ==> At(ctx, rank, n, st, b.st)
  {
    hide Matched, RunProcess, Body, Downhill, Follows, Before, F.InBody, F.Fault;
    F.RunBodyFares(ctx, iset{n}, s, n);
  }

  lemma AtMarked(ctx: Context, rank: map<Node, nat>, st: State, s: State, n: Node, seg: Option<Segment>)
    requires At(ctx, rank, n, st, s)
    ensures At(ctx, rank, n, st, State(MarkNodeSegment(s.sd, n, seg), s.loc))
  {
    hide Setting, Before;
  }

  lemma {:induction false} SubProcessComes(ctx: Context, rank: map<Node, nat>, st: State, s: State, n: Node)
    requires At(ctx, rank, n, st, s) && n !in ctx.p.skipped && HasKind(ctx.p.g, n, SubProcess)
    requires Follows(ctx.p, n) == First(Nexts(ctx.p, n))
    ensures var r := CompileSubProcess(ctx, s, n); r.Done? ==> Came(ctx, rank, n, st, r.st, false)
    decreases rank[n], 3
  {
    hide Matched, At, Came, Nexts, TraverseFirst, Follows, AddStep, Flush, RunBody, FirstDepartment, MarkNodeSegment,
         First;
    if n in ctx.bodies {
      var b := RunBody(ctx, s, n);
      if b.SubDone? {
        AtAfterBody(ctx, rank, st, s, n);
        var seg := FirstDepartment(b.steps);
        var marked := State(MarkNodeSegment(b.st.sd, n, seg), b.st.loc);
        AtMarked(ctx, rank, st, b.st, n, seg);
        AtFlushed(ctx, rank, st, marked, n);
        AtStep(ctx, rank, st, Flush(marked), n, SubWorkflow(n, b.steps));
        FirstComes(ctx, rank, st, AddStep(Flush(marked), SubWorkflow(n, b.steps)), n);
      }
    }
  }

  lemma {:induction false} CallComes(ctx: Context, rank: map<Node, nat>, st: State, s: State, n: Node)
    requires At(ctx, rank, n, st, s) && Follows(ctx.p, n) == First(Nexts(ctx.p, n))
    ensures var r := CompileCall(ctx, s, n); r.Done? ==> Came(ctx, rank, n, st, r.st, false)
    decreases rank[n], 3
  {
    hide Matched, At, Came, Nexts, TraverseFirst, Follows, AddStep, Flush, ReserveLanes, First;
    if n !in ctx.p.failing {
      var lanes := if n in ctx.p.reserved then ctx.p.reserved[n] else [];
      var reserved := State(ReserveLanes(s.sd, lanes), s.loc);
      AtReserved(ctx, rank, st, s, n, lanes);
      AtFlushed(ctx, rank, st, reserved, n);
      AtStep(ctx, rank, st, Flush(reserved), n, CallPlan(n));
      FirstComes(ctx, rank, st, AddStep(Flush(reserved), CallPlan(n)), n);
    }
  }

  lemma AtReserved(ctx: Context, rank: map<Node, nat>, st: State, s: State, n: Node, lanes: seq<Lane>)
    requires At(ctx, rank, n, st, s)
    ensures At(ctx, rank, n, st, State(ReserveLanes(s.sd, lanes), s.loc))
  {
    hide Setting, Before, ReserveLanes;
    ReserveKeepsNodes(s.sd, lanes);
  }

  // ----- whole runs -----

  // All that lies ahead of n was compiled.
  ghost predicate AllCompiled(p: Process, bodies: Bodies, n: Node, sd: Store) {
    forall m :: Ahead(p, n, None, m) ==> m in sd.visited && F.Compiles(p, bodies, m)
  }

  lemma FreshComes(ctx: Context, rank: map<Node, nat>, sd: Store, n: Node)
    requires Setting(ctx.p, ctx.bodies, rank) && n in rank && ctx.stopAt == None && !ctx.stopAtCompiled
    ensures var r := TraverseNode(ctx, State(sd, Fresh(false)), n);
            r.Done? ==> AllCompiled(ctx.p, ctx.bodies, n, r.st.sd)
  {
    hide TraverseNode, Matched, Setting, Ahead, F.Compiles, ComesBack;
    NodeComes(ctx, rank, State(sd, Fresh(false)), n);
  }

  lemma LaterCompiled(p: Process, bodies: Bodies, n: Node, sd: Store, sd': Store)
    requires AllCompiled(p, bodies, n, sd) && sd.visited <= sd'.visited
    ensures AllCompiled(p, bodies, n, sd')
  {
    hide Ahead, F.Compiles;
  }

  /** A process that is run, a body say, has compiled all that lies ahead of its entry. */
  lemma RunComes(ctx: Context, rank: map<Node, nat>, sd: Store)
    requires Setting(ctx.p, ctx.bodies, rank) && ctx.stopAt == None && !ctx.stopAtCompiled
    requires Entry(ctx.p, None).Some? ==> Entry(ctx.p, None).value in rank
    ensures var r := RunProcess(ctx, State(sd, Fresh(false)));
            r.Done? && Entry(ctx.p, None).Some? ==> AllCompiled(ctx.p, ctx.bodies, Entry(ctx.p, None).value, r.st.sd)
  {
    hide TraverseNode, Matched, Setting, AllCompiled, Nexts, BoundaryPaths, F.Region, F.Accounted;
    var r := RunProcess(ctx, State(sd, Fresh(false)));
    if r.Done? && Entry(ctx.p, None).Some? {
      var n := Entry(ctx.p, None).value;
      FreshComes(ctx, rank, sd, n);
      var t := TraverseNode(ctx, State(sd, Fresh(false)), n);
      assert TraverseFirst(ctx, State(sd, Fresh(false)), ctx.p.start.value) == t;
      F.PathsFare(ctx, None, t.st, ctx.p.boundaries);
      LaterCompiled(ctx.p, ctx.bodies, n, t.st.sd, r.st.sd);
    }
  }

  /** A plan that compiles has compiled all that lies ahead of its entry. */
  lemma PlanComes(p: Process, bodies: Bodies, rank: map<Node, nat>, implicit: Option<Node>)
    requires Setting(p, bodies, rank) && (Entry(p, implicit).Some? ==> Entry(p, implicit).value in rank)
    ensures var r := CompilePlan(p, bodies, implicit);
            r.Done? && Entry(p, implicit).Some? ==> AllCompiled(p, bodies, Entry(p, implicit).value, r.st.sd)
  {
    hide TraverseNode, Matched, Setting, AllCompiled, Nexts, BoundaryPaths, F.Region, F.Accounted;
    var ctx := Context(p, bodies, None, false);
    var r := CompilePlan(p, bodies, implicit);
    if r.Done? && Entry(p, implicit).Some? {
      if p.start.Some? {
        RunComes(ctx, rank, EMPTY_STORE);
      } else {
        FreshComes(ctx, rank, EMPTY_STORE, implicit.value);
        var t := TraverseNode(ctx, State(EMPTY_STORE, Fresh(false)), implicit.value);
        F.PathsFare(ctx, implicit, t.st, p.boundaries);
        LaterCompiled(p, bodies, implicit.value, t.st.sd, r.st.sd);
      }
    }
  }

  /**
   * The path out of a boundary event has steps of its own unless it comes back:
   * unless, going on from where the event leads, it comes to a node other than an
   * end event that the main flow visited, or twice to one; and then it compiled
   * all that lies ahead.
   */
  lemma PathComes(ctx: Context, rank: map<Node, nat>, st: State, be: Node)
    requires Setting(ctx.p, ctx.bodies, rank)
    requires FirstTarget(ctx.p, be).Some? ==> FirstTarget(ctx.p, be).value in rank
    ensures var r := BoundaryPath(ctx, st, be);
            var task := BoundaryTask(ctx.p, be);
            r.Done? && task.Some? && task.value !in st.sd.nodeSegment ==>
              var target := FirstTarget(ctx.p, be).value;
              var t := TraverseNode(Context(ctx.p, ctx.bodies, None, true), State(st.sd, Fresh(false)), target);
              if ComesBack(ctx.p, target, None, st.sd.visited) then r.st.sd == t.st.sd
              else
                && AllCompiled(ctx.p, ctx.bodies, target, r.st.sd)
                && be in r.st.sd.boundarySteps && r.st.sd.boundarySteps[be] == Flush(t.st).loc.steps
  {
    hide TraverseNode, Matched, Setting, TaskAhead, Ahead, F.Compiles, ComesBack, Flush;
    var task := BoundaryTask(ctx.p, be);
    if task.Some? && task.value !in st.sd.nodeSegment {
      NodeComes(Context(ctx.p, ctx.bodies, None, true), rank, State(st.sd, Fresh(false)), FirstTarget(ctx.p, be).value);
    }
  }

  /**
   * What became of a boundary event that leads to a task: the task has its place,
   * or the event has steps of its own, or its path comes back to what was visited.
   */
  ghost predicate EventHandled(p: Process, be: Node, sd: Store) {
    BoundaryTask(p, be).Some? ==>
      || BoundaryTask(p, be).value in sd.nodeSegment || be in sd.boundarySteps
      || ComesBack(p, FirstTarget(p, be).value, None, sd.visited)
  }

  lemma HandledStays(p: Process, be: Node, sd: Store, sd': Store)
    requires EventHandled(p, be, sd) && F.Later(sd, sd')
    ensures EventHandled(p, be, sd')
  {
    hide Ahead, Crossed, TaskAhead;
  }

  ghost predicate TargetsRanked(p: Process, rank: map<Node, nat>, bs: seq<Node>) {
    forall be :: be in bs && FirstTarget(p, be).Some? ==> FirstTarget(p, be).value in rank
  }

  lemma {:induction false} EventsHandled(ctx: Context, rank: map<Node, nat>, st: State, bs: seq<Node>)
    requires Setting(ctx.p, ctx.bodies, rank) && TargetsRanked(ctx.p, rank, bs)
    requires forall be :: be in bs ==> be in ctx.p.boundaries
    ensures var r := BoundaryPaths(ctx, st, bs);
            r.Done? ==> forall be :: be in bs ==> EventHandled(ctx.p, be, r.st.sd)
    decreases |bs|
  {
    hide Matched, Setting, BoundaryPath, F.Region, F.Accounted, F.Later, EventHandled;
    if bs != [] {
      var r := BoundaryPath(ctx, st, bs[0]);
      if r.Done? {
        assert forall be :: be in bs <==> be == bs[0] || be in bs[1..];
        OneHandled(ctx, rank, st, bs[0]);
        EventsHandled(ctx, rank, r.st, bs[1..]);
        F.PathsFare(ctx, None, r.st, bs[1..]);
        var rest := BoundaryPaths(ctx, r.st, bs[1..]);
        if rest.Done? {
          HandledStays(ctx.p, bs[0], r.st.sd, rest.st.sd);
        }
      }
    }
  }

  lemma OneHandled(ctx: Context, rank: map<Node, nat>, st: State, be: Node)
    requires Setting(ctx.p, ctx.bodies, rank)
    requires FirstTarget(ctx.p, be).Some? ==> FirstTarget(ctx.p, be).value in rank
    requires be in ctx.p.boundaries
    ensures var r := BoundaryPath(ctx, st, be); r.Done? ==> EventHandled(ctx.p, be, r.st.sd)
  {
    hide Matched, Setting, BoundaryPath, F.Region, F.Accounted, ComesBack, TaskAhead, TraverseNode, AllCompiled;
    PathComes(ctx, rank, st, be);
    F.PathFares(ctx, None, st, be);
    var r := BoundaryPath(ctx, st, be);
    if r.Done? && BoundaryTask(ctx.p, be).Some? && ComesBack(ctx.p, FirstTarget(ctx.p, be).value, None, st.sd.visited) {
      StillComesBack(ctx.p, FirstTarget(ctx.p, be).value, st.sd.visited, r.st.sd.visited);
    }
  }

  lemma StillComesBack(p: Process, n: Node, before: set<Node>, after: set<Node>)
    requires ComesBack(p, n, None, before) && before <= after
    ensures ComesBack(p, n, None, after)
  {
    hide Ahead, Crossed;
  }

  /** In a plan that compiles every boundary event is handled. */
  lemma PlanHandlesEvents(p: Process, bodies: Bodies, rank: map<Node, nat>, implicit: Option<Node>)
    requires Setting(p, bodies, rank) && TargetsRanked(p, rank, p.boundaries)
    ensures var r := CompilePlan(p, bodies, implicit);
            r.Done? ==> forall be :: be in p.boundaries ==> EventHandled(p, be, r.st.sd)
  {
    hide TraverseFirst, TraverseNode, Matched, Setting, BoundaryPaths, EventHandled, TargetsRanked;
    var ctx := Context(p, bodies, None, false);
    var st := State(EMPTY_STORE, Fresh(false));
    var r := CompilePlan(p, bodies, implicit);
    if r.Done? {
      var t := if p.start.Some? then TraverseFirst(ctx, st, p.start.value) else TraverseNode(ctx, st, implicit.value);
      EventsHandled(ctx, rank, t.st, p.boundaries);
    }
  }
}

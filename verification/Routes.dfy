/**
 * The memoised search for the calls of the main document through which a module
 * is reached, as module_resolution.go and call_graph.go both run it on possibly
 * cyclic call graphs: it is exact, and only whole results are remembered.
 */
module Routes {
  import opened Graphs
  import opened Sets

  datatype Label = Label(id: nat)

  // How a module is called: straight from the main document, or from inside another module.
  datatype Hop = FromRoot(call: Node, via: Label) | FromModule(parent: Node, via: Label)

  datatype Route = Route(call: Node, path: seq<Label>)

  type Callers = map<Node, seq<Hop>>
  type Memo = map<Node, seq<Route>>

  function HopsTo(callers: Callers, id: Node): seq<Hop> {
    if id in callers then callers[id] else []
  }

  // h is the last hop of route r to id; the hops before it avoid V.
  ghost predicate LastHop(callers: Callers, id: Node, r: Route, V: set<Node>, h: Hop)
    requires r.path != []
    decreases |r.path|, 0
  {
    && h in HopsTo(callers, id) && h.via == r.path[|r.path|-1]
    && match h
       case FromRoot(call, _) => |r.path| == 1 && call == r.call
       case FromModule(parent, _) => |r.path| > 1 && Chain(callers, parent, Route(r.call, r.path[..|r.path|-1]), V)
  }

  /** r leads from a call of the main document down to id, through no module of V. */
  ghost predicate Chain(callers: Callers, id: Node, r: Route, V: set<Node>)
    decreases |r.path|, 1
  {
    id !in V && r.path != [] && exists h :: LastHop(callers, id, r, V, h)
  }

  ghost predicate Genuine(callers: Callers, id: Node, r: Route) {
    Chain(callers, id, r, {})
  }

  // The root call c leads to id without entering V.
  ghost predicate Leads(callers: Callers, id: Node, c: Node, V: set<Node>) {
    exists r: Route :: r.call == c && Chain(callers, id, r, V)
  }

  ghost predicate RootCall(callers: Callers, id: Node, c: Node) {
    Leads(callers, id, c, {})
  }

  // ----- chains -----

  lemma ChainLast(callers: Callers, id: Node, r: Route, V: set<Node>) returns (h: Hop)
    requires Chain(callers, id, r, V)
    ensures h in HopsTo(callers, id) && h.via == r.path[|r.path|-1]
    ensures h.FromRoot? ==> |r.path| == 1 && h.call == r.call
    ensures h.FromModule? ==> |r.path| > 1 && Chain(callers, h.parent, Route(r.call, r.path[..|r.path|-1]), V)
  {
    h :| LastHop(callers, id, r, V, h);
  }

  lemma ChainByRoot(callers: Callers, id: Node, h: Hop, V: set<Node>)
    requires h in HopsTo(callers, id) && h.FromRoot? && id !in V
    ensures Chain(callers, id, Route(h.call, [h.via]), V)
  {
    assert LastHop(callers, id, Route(h.call, [h.via]), V, h);
  }

  lemma ChainByModule(callers: Callers, id: Node, h: Hop, r: Route, V: set<Node>)
    requires h in HopsTo(callers, id) && h.FromModule? && id !in V && Chain(callers, h.parent, r, V)
    ensures Chain(callers, id, Route(r.call, r.path + [h.via]), V)
  {
    var r' := Route(r.call, r.path + [h.via]);
    assert r'.path[..|r'.path|-1] == r.path;
    assert LastHop(callers, id, r', V, h);
  }

  // A chain to p either avoids id or passes it, and the part up to id is no longer.
  lemma {:induction false} CutAt(callers: Callers, p: Node, r: Route, V: set<Node>, id: Node) returns (avoids: bool,
                                 cut: Route)
    requires Chain(callers, p, r, V)
    ensures avoids ==> Chain(callers, p, r, V + {id})
    ensures !avoids ==> cut.call == r.call && |cut.path| <= |r.path| && Chain(callers, id, cut, V)
    decreases |r.path|
  {
    cut := r;
    if p == id {
      avoids := false;
    } else {
      var h := ChainLast(callers, p, r, V);
      match h
      case FromRoot(_, _) =>
        avoids := true;
        ChainByRoot(callers, p, h, V + {id});
        assert r == Route(h.call, [h.via]);
      case FromModule(_, _) =>
        var init := Route(r.call, r.path[..|r.path|-1]);
        avoids, cut := CutAt(callers, h.parent, init, V, id);
        if avoids {
          ChainByModule(callers, p, h, init, V + {id});
          assert r == Route(init.call, init.path + [h.via]);
        }
    }
  }

  /** A root call leads to id by a hop of its own, or through a caller without coming back to id. */
  lemma {:induction false} LastStep(callers: Callers, id: Node, r: Route, V: set<Node>) returns (h: Hop)
    requires Chain(callers, id, r, V)
    ensures h in HopsTo(callers, id)
    ensures h.FromRoot? ==> h.call == r.call
    ensures h.FromModule? ==> Leads(callers, h.parent, r.call, V + {id})
    decreases |r.path|
  {
    hide Chain;
    h := ChainLast(callers, id, r, V);
    if h.FromModule? {
      var init := Route(r.call, r.path[..|r.path|-1]);
      var avoids, cut := CutAt(callers, h.parent, init, V, id);
      if !avoids {
        h := LastStep(callers, id, cut, V);
      }
    }
  }

  // ----- the search -----

  ghost predicate Has(found: seq<Route>, c: Node) {
    exists r :: r in found && r.call == c
  }

  // No root call twice, and every route is one.
  ghost predicate Sound(callers: Callers, id: Node, found: seq<Route>) {
    && (forall r :: r in found ==> Genuine(callers, id, r))
    && (forall i, j :: 0 <= i < j < |found| ==> found[i].call != found[j].call)
  }

  ghost predicate Full(callers: Callers, id: Node, found: seq<Route>) {
    Sound(callers, id, found) && forall c :: RootCall(callers, id, c) ==> Has(found, c)
  }

  /** Every entry remembered is the whole answer for its module. */
  ghost predicate MemoFull(callers: Callers, memo: Memo) {
    forall id :: id in memo ==> Full(callers, id, memo[id])
  }

  // What the first hops of id give: their root calls, and those that lead to their callers outside V.
  ghost predicate Covers(callers: Callers, hops: seq<Hop>, V: set<Node>, found: seq<Route>) {
    forall h, c :: h in hops && (if h.FromRoot? then c == h.call else Leads(callers, h.parent, c, V)) ==> Has(found, c)
  }

  function AddRoute(found: seq<Route>, r: Route): seq<Route> {
    if exists o | o in found :: o.call == r.call then found else found + [r]
  }

  lemma AddKeeps(callers: Callers, id: Node, found: seq<Route>, r: Route)
    requires Sound(callers, id, found) && Genuine(callers, id, r)
    ensures Sound(callers, id, AddRoute(found, r)) && Has(AddRoute(found, r), r.call)
    ensures forall c :: Has(found, c) ==> Has(AddRoute(found, r), c)
  {
    hide Genuine;
    if exists o | o in found :: o.call == r.call {
    } else {
      assert r in found + [r];
      forall c | Has(found, c)
        ensures Has(found + [r], c)
      {
        var o :| o in found && o.call == c;
        assert o in found + [r];
      }
    }
  }

  lemma {:induction false} CoversMore(callers: Callers, hops: seq<Hop>, h: Hop, V: set<Node>, found: seq<Route>,
                                      found': seq<Route>)
    requires Covers(callers, hops, V, found)
    requires forall c :: Has(found, c) ==> Has(found', c)
    requires forall c :: (if h.FromRoot? then c == h.call else Leads(callers, h.parent, c, V)) ==> Has(found', c)
    ensures Covers(callers, hops + [h], V, found')
  {
    hide Leads, Has;
  }

  // Once all hops are covered, nothing that leads to id is missed.
  lemma CoveredAll(callers: Callers, id: Node, V: set<Node>, W: set<Node>, found: seq<Route>, c: Node)
    requires Covers(callers, HopsTo(callers, id), W, found) && Leads(callers, id, c, V) && W <= V + {id}
    ensures Has(found, c)
  {
    hide Has, Chain;
    var r: Route :| r.call == c && Chain(callers, id, r, V);
    var h := LastStep(callers, id, r, V);
    if h.FromModule? {
      LeadsNarrow(callers, h.parent, c, V + {id}, W);
    }
  }

  lemma LeadsNarrow(callers: Callers, id: Node, c: Node, V: set<Node>, W: set<Node>)
    requires Leads(callers, id, c, V) && W <= V
    ensures Leads(callers, id, c, W)
  {
    hide Chain;
    var r: Route :| r.call == c && Chain(callers, id, r, V);
    ChainNarrow(callers, id, r, V, W);
  }

  lemma {:induction false} ChainNarrow(callers: Callers, id: Node, r: Route, V: set<Node>, W: set<Node>)
    requires Chain(callers, id, r, V) && W <= V
    ensures Chain(callers, id, r, W)
    decreases |r.path|
  {
    var h := ChainLast(callers, id, r, V);
    match h
    case FromRoot(_, _) =>
      ChainByRoot(callers, id, h, W);
      assert r == Route(h.call, [h.via]);
    case FromModule(_, _) =>
      var init := Route(r.call, r.path[..|r.path|-1]);
      ChainNarrow(callers, h.parent, init, V, W);
      ChainByModule(callers, id, h, init, W);
      assert r == Route(init.call, init.path + [h.via]);
  }

  class RouteSearch {
    const callers: Callers
    var memo: Memo
    var visiting: set<Node>

    constructor (callers: Callers)
      ensures this.callers == callers && memo == map[] && visiting == {}
    {
      this.callers, memo, visiting := callers, map[], {};
    }

    /**
     * The routes to id that avoid the modules being visited are all found; a
     * complete result misses none at all, and at top level every result is whole.
     */
    method Find(id: Node) returns (found: seq<Route>, complete: bool)
      requires MemoFull(callers, memo)
      modifies this
      ensures MemoFull(callers, memo) && visiting == old(visiting)
      ensures Sound(callers, id, found)
      ensures forall c :: Leads(callers, id, c, visiting) ==> Has(found, c)
      ensures complete ==> Full(callers, id, found)
      ensures visiting == {} ==> Full(callers, id, found)
      decreases |callers.Keys - visiting|
    {
      hide Leads, Has, Sound, Full, Covers, Chain;
      if id in memo {
        FullLeads(callers, id, memo[id], visiting);
        return memo[id], true;
      }
      if id in visiting {
        VisitingLeads(callers, id, visiting);
        return [], false;
      }
      ghost var V := visiting;
      visiting := visiting + {id};
      complete := true;
      found := [];
      var hops := HopsTo(callers, id);
      NothingYet(callers, id, V);
      for i := 0 to |hops|
        invariant MemoFull(callers, memo) && visiting == V + {id}
        invariant Sound(callers, id, found)
        invariant Covers(callers, hops[..i], V + {id}, found)
        invariant complete ==> Covers(callers, hops[..i], {}, found)
      {
        assert hops[..i + 1] == hops[..i] + [hops[i]];
        ghost var before := found;
        match hops[i] {
          case FromRoot(call, via) =>
            RootGenuine(callers, id, hops[i]);
            AddKeeps(callers, id, found, Route(call, [via]));
            found := AddRoute(found, Route(call, [via]));
            CoversMore(callers, hops[..i], hops[i], V + {id}, before, found);
            if complete {
              CoversMore(callers, hops[..i], hops[i], {}, before, found);
            }
          case FromModule(parent, via) =>
            FewerLeft(callers.Keys, V, V + {id}, id);
            var parents, whole := Find(parent);
            complete := complete && whole;
            found := AddParents(id, hops[i], found, parents);
            CoversMore(callers, hops[..i], hops[i], V + {id}, before, found);
            if complete {
              WholeLeads(callers, parent, parents);
              CoversMore(callers, hops[..i], hops[i], {}, before, found);
            }
        }
      }
      assert hops[..|hops|] == hops;
      CoversFound(callers, id, V, found, complete);
      if complete {
        memo := memo[id := found];
      }
      visiting := visiting - {id};
    }

    // Every route to the caller, gone on by one hop.
    method AddParents(id: Node, h: Hop, found0: seq<Route>, parents: seq<Route>) returns (found: seq<Route>)
      requires h in HopsTo(callers, id) && h.FromModule?
      requires Sound(callers, id, found0) && Sound(callers, h.parent, parents)
      ensures Sound(callers, id, found)
      ensures forall c :: Has(found0, c) || Has(parents, c) ==> Has(found, c)
    {
      hide Chain;
      found := found0;
      for i := 0 to |parents|
        invariant Sound(callers, id, found)
        invariant forall c :: Has(found0, c) ==> Has(found, c)
        invariant forall j :: 0 <= j < i ==> Has(found, parents[j].call)
      {
        hide Has, HopsTo;
        var r := Route(parents[i].call, parents[i].path + [h.via]);
        assert Genuine(callers, h.parent, parents[i]);
        ChainByModule(callers, id, h, parents[i], {});
        AddKeeps(callers, id, found, r);
        found := AddRoute(found, r);
      }
    }
  }

  lemma FullLeads(callers: Callers, id: Node, found: seq<Route>, V: set<Node>)
    requires Full(callers, id, found)
    ensures Sound(callers, id, found) && forall c :: Leads(callers, id, c, V) ==> Has(found, c)
  {
    hide Has, Chain, Sound, Leads;
    forall c | Leads(callers, id, c, V)
      ensures Has(found, c)
    {
      LeadsNarrow(callers, id, c, V, {});
      assert RootCall(callers, id, c);
    }
  }

  lemma WholeLeads(callers: Callers, id: Node, found: seq<Route>)
    requires Full(callers, id, found)
    ensures forall c :: Leads(callers, id, c, {}) ==> Has(found, c)
  {
    FullLeads(callers, id, found, {});
  }

  lemma VisitingLeads(callers: Callers, id: Node, V: set<Node>)
    requires id in V
    ensures Sound(callers, id, []) && forall c :: !Leads(callers, id, c, V)
    ensures V != {}
  {
  }

  lemma NothingYet(callers: Callers, id: Node, V: set<Node>)
    ensures Sound(callers, id, []) && Covers(callers, [], V + {id}, []) && Covers(callers, [], {}, [])
  {
    hide Leads, Has;
  }

  lemma RootGenuine(callers: Callers, id: Node, h: Hop)
    requires h in HopsTo(callers, id) && h.FromRoot?
    ensures Genuine(callers, id, Route(h.call, [h.via]))
  {
    hide Chain;
    ChainByRoot(callers, id, h, {});
  }

  lemma CoversFound(callers: Callers, id: Node, V: set<Node>, found: seq<Route>, complete: bool)
    requires Sound(callers, id, found) && Covers(callers, HopsTo(callers, id), V + {id}, found)
    requires complete ==> Covers(callers, HopsTo(callers, id), {}, found)
    ensures forall c :: Leads(callers, id, c, V) ==> Has(found, c)
    ensures complete || V == {} ==> Full(callers, id, found)
  {
    hide Leads, Has, Sound, Covers;
    forall c | Leads(callers, id, c, V)
      ensures Has(found, c)
    {
      CoveredAll(callers, id, V, V + {id}, found, c);
    }
    if complete || V == {} {
      forall c | RootCall(callers, id, c)
        ensures Has(found, c)
      {
        CoveredAll(callers, id, {}, if complete then {} else V + {id}, found, c);
      }
    }
  }

  /** Called at top level, the routes are exactly the root calls that lead to the module, each once. */
  method RoutesTo(search: RouteSearch, id: Node) returns (found: seq<Route>)
    requires MemoFull(search.callers, search.memo) && search.visiting == {}
    modifies search
    ensures MemoFull(search.callers, search.memo) && search.visiting == {}
    ensures Full(search.callers, id, found)
  {
    hide Full, MemoFull;
    var complete;
    found, complete := search.Find(id);
  }

  lemma FullIsExact(callers: Callers, id: Node, found: seq<Route>, c: Node)
    requires Full(callers, id, found)
    ensures Has(found, c) <==> RootCall(callers, id, c)
    ensures forall r :: r in found ==> Genuine(callers, id, r)
  {
    hide Chain;
  }
}

/**
 * What a process graph means: the words of tasks and calls along its forward
 * paths, and the equations by which such a language is computed node by node.
 */
module PathLanguage {
  import opened Wrappers
  import opened Graphs
  import opened Languages
  import opened PostDominators
  import opened Traversal

  ghost function ForwardGraph(p: Process): Succ {
    Forward(p.g.outgoing, p.back)
  }

  // Where a process is entered: along the start event's first forward flow, or at its implicit start.
  ghost function Entry(p: Process, implicit: Option<Node>): Option<Node> {
    match p.start
    case Some(start) => if Nexts(p, start) == [] then None else Some(Nexts(p, start)[0])
    case None => implicit
  }

  // A forward path from n that cannot be continued, or that ends where it first meets the stop node.
  ghost predicate RunsTo(p: Process, path: seq<Node>, n: Node, stop: Option<Node>) {
    && Path(ForwardGraph(p), path) && path[0] == n
    && match stop
       case None => Nexts(p, path[|path|-1]) == []
       case Some(j) => path[|path|-1] == j && j !in path[..|path|-1]
  }

  // The nodes of a path that run: the stop node is not one of them.
  function Trim(path: seq<Node>, stop: Option<Node>): seq<Node> {
    if stop.Some? && path != [] then path[..|path|-1] else path
  }

  // What one node runs; a sub-process runs the words of its body.
  ghost function NodeLang(p: Process, bodies: Bodies, n: Node): Lang
    decreases |bodies|, 0, 0
  {
    if n in p.skipped || n !in p.g.kind then Eps()
    else
      match p.g.kind[n]
      case UserTask => Just([Task(n)])
      case SendTask => Just([Task(n)])
      case ReceiveTask => Just([Task(n)])
      case CallActivity => Just([Called(n)])
      case SubProcess => if n in bodies then BodyLang(p, bodies, n) else Eps()
      case _ => Eps()
  }

  ghost function BodyLang(p: Process, bodies: Bodies, n: Node): Lang
    requires n in bodies
    decreases |bodies|, 0, 0, 0
  {
    ProcessLang(Body(p, bodies, n), map[])
  }

  ghost function Words(p: Process, bodies: Bodies, path: seq<Node>): Lang
    decreases |bodies|, 1, |path|
  {
    if path == [] then Eps() else Cat(NodeLang(p, bodies, path[0]), Words(p, bodies, path[1..]))
  }

  ghost predicate Spells(p: Process, bodies: Bodies, n: Node, stop: Option<Node>, path: seq<Node>, w: Word)
    decreases |bodies|, 2, 0
  {
    RunsTo(p, path, n, stop) && w in Words(p, bodies, Trim(path, stop))
  }

  ghost predicate SpelledFrom(p: Process, bodies: Bodies, n: Node, stop: Option<Node>, w: Word)
    decreases |bodies|, 3, 0
  {
    exists path :: Spells(p, bodies, n, stop, path, w)
  }

  /** The words along the forward paths from n, up to the stop node if there is one. */
  ghost function PathLang(p: Process, bodies: Bodies, n: Node, stop: Option<Node>): Lang
    decreases |bodies|, 4, 0
  {
    iset w: Word | SpelledFrom(p, bodies, n, stop, w)
  }

  // A process runs from the first forward flow out of its start event.
  ghost function ProcessLang(p: Process, bodies: Bodies): Lang
    decreases |bodies|, 5, 0
  {
    if p.start.None? || Nexts(p, p.start.value) == [] then Eps()
    else PathLang(p, bodies, Nexts(p, p.start.value)[0], None)
  }

  ghost function NextsLang(p: Process, bodies: Bodies, ms: seq<Node>, stop: Option<Node>): Lang {
    if ms == [] then iset{} else PathLang(p, bodies, ms[0], stop) + NextsLang(p, bodies, ms[1..], stop)
  }

  // ----- the equations -----

  lemma NextsAreEdges(p: Process, n: Node)
    ensures Outs(ForwardGraph(p), n) == Nexts(p, n)
    ensures forall m :: m in Nexts(p, n) <==> HasEdge(ForwardGraph(p), n, m)
  {
    hide Path;
  }

  lemma SpelledBy(p: Process, bodies: Bodies, n: Node, stop: Option<Node>, w: Word) returns (path: seq<Node>)
    requires w in PathLang(p, bodies, n, stop)
    ensures RunsTo(p, path, n, stop) && w in Words(p, bodies, Trim(path, stop))
  {
    hide RunsTo, Words, Trim;
    assert SpelledFrom(p, bodies, n, stop, w);
    path :| Spells(p, bodies, n, stop, path, w);
  }

  lemma PathSpells(p: Process, bodies: Bodies, n: Node, stop: Option<Node>, path: seq<Node>, w: Word)
    requires RunsTo(p, path, n, stop) && w in Words(p, bodies, Trim(path, stop))
    ensures w in PathLang(p, bodies, n, stop)
  {
    hide RunsTo, Words, Trim;
    assert Spells(p, bodies, n, stop, path, w);
    assert SpelledFrom(p, bodies, n, stop, w);
  }

  lemma AtStop(p: Process, bodies: Bodies, n: Node)
    ensures PathLang(p, bodies, n, Some(n)) == Eps()
  {
    hide NodeLang, PathLang;
    forall w
      ensures w in PathLang(p, bodies, n, Some(n)) <==> w == []
    {
      if w in PathLang(p, bodies, n, Some(n)) {
        var path := SpelledBy(p, bodies, n, Some(n), w);
        assert |path| == 1;
      }
      if w == [] {
        assert Path(ForwardGraph(p), [n]);
        assert Trim([n], Some(n)) == [];
        PathSpells(p, bodies, n, Some(n), [n], w);
      }
    }
  }

  lemma AtSink(p: Process, bodies: Bodies, n: Node)
    requires Nexts(p, n) == []
    ensures PathLang(p, bodies, n, None) == NodeLang(p, bodies, n)
  {
    hide NodeLang, PathLang, Nexts, ForwardGraph, Cat;
    NextsAreEdges(p, n);
    CatEpsRight(NodeLang(p, bodies, n));
    assert Words(p, bodies, [n]) == NodeLang(p, bodies, n) by {
      assert [n][1..] == [];
    }
    hide Words;
    forall w
      ensures w in PathLang(p, bodies, n, None) <==> w in NodeLang(p, bodies, n)
    {
      if w in PathLang(p, bodies, n, None) {
        var path := SpelledBy(p, bodies, n, None, w);
        assert path == [n];
      }
      if w in NodeLang(p, bodies, n) {
        assert Path(ForwardGraph(p), [n]);
        PathSpells(p, bodies, n, None, [n], w);
      }
    }
  }

  lemma {:induction false} InNexts(p: Process, bodies: Bodies, ms: seq<Node>, stop: Option<Node>, w: Word)
    ensures w in NextsLang(p, bodies, ms, stop) ==> exists m :: m in ms && w in PathLang(p, bodies, m, stop)
    ensures forall m :: m in ms && w in PathLang(p, bodies, m, stop) ==> w in NextsLang(p, bodies, ms, stop)
  {
    hide PathLang;
    if ms != [] {
      InNexts(p, bodies, ms[1..], stop, w);
      assert forall m :: m in ms <==> m == ms[0] || m in ms[1..];
      if w in NextsLang(p, bodies, ms, stop) {
        assert w in PathLang(p, bodies, ms[0], stop) || w in NextsLang(p, bodies, ms[1..], stop);
        assert exists m :: m in ms && w in PathLang(p, bodies, m, stop);
      }
    }
  }

  // A path that goes on runs its first node, then a path from the next one.
  lemma PathGoesOn(p: Process, bodies: Bodies, n: Node, stop: Option<Node>, path: seq<Node>)
    requires Some(n) != stop && Nexts(p, n) != [] && RunsTo(p, path, n, stop)
    ensures |path| > 1 && path[1] in Nexts(p, n) && RunsTo(p, path[1..], path[1], stop)
    ensures Words(p, bodies, Trim(path, stop)) == Cat(NodeLang(p, bodies, n), Words(p, bodies, Trim(path[1..], stop)))
  {
    hide NodeLang, Cat, Nexts;
    NextsAreEdges(p, n);
    assert |path| > 1;
    var rest := path[1..];
    assert HasEdge(ForwardGraph(p), n, path[1]);
    if stop.Some? {
      assert rest[..|rest|-1] == path[..|path|-1][1..];
    }
    var trimmed := Trim(path, stop);
    assert trimmed[0] == n && trimmed[1..] == Trim(rest, stop);
  }

  lemma PathPrepended(p: Process, bodies: Bodies, n: Node, m: Node, stop: Option<Node>, rest: seq<Node>)
    requires Some(n) != stop && m in Nexts(p, n) && RunsTo(p, rest, m, stop)
    ensures RunsTo(p, [n] + rest, n, stop)
    ensures Words(p, bodies, Trim([n] + rest, stop)) == Cat(NodeLang(p, bodies, n), Words(p, bodies, Trim(rest, stop)))
  {
    hide NodeLang, Cat, Nexts;
    NextsAreEdges(p, n);
    var path := [n] + rest;
    assert HasEdge(ForwardGraph(p), n, m);
    assert path[1..] == rest;
    var trimmed := Trim(path, stop);
    if stop.Some? {
      assert path[..|path|-1] == [n] + rest[..|rest|-1];
    }
    assert trimmed[0] == n && trimmed[1..] == Trim(rest, stop);
  }

  lemma SpellsFirst(p: Process, bodies: Bodies, n: Node, stop: Option<Node>, w: Word)
    requires Some(n) != stop && Nexts(p, n) != [] && w in PathLang(p, bodies, n, stop)
    ensures w in Cat(NodeLang(p, bodies, n), NextsLang(p, bodies, Nexts(p, n), stop))
  {
    hide *;
    var path := SpelledBy(p, bodies, n, stop, w);
    PathGoesOn(p, bodies, n, stop, path);
    var u, v := OutOfCat(NodeLang(p, bodies, n), Words(p, bodies, Trim(path[1..], stop)), w);
    PathSpells(p, bodies, path[1], stop, path[1..], v);
    InNexts(p, bodies, Nexts(p, n), stop, v);
    InCat(NodeLang(p, bodies, n), NextsLang(p, bodies, Nexts(p, n), stop), u, v);
  }

  lemma FirstSpells(p: Process, bodies: Bodies, n: Node, stop: Option<Node>, w: Word)
    requires Some(n) != stop && w in Cat(NodeLang(p, bodies, n), NextsLang(p, bodies, Nexts(p, n), stop))
    ensures w in PathLang(p, bodies, n, stop)
  {
    hide *;
    var u, v := OutOfCat(NodeLang(p, bodies, n), NextsLang(p, bodies, Nexts(p, n), stop), w);
    InNexts(p, bodies, Nexts(p, n), stop, v);
    var m :| m in Nexts(p, n) && v in PathLang(p, bodies, m, stop);
    var rest := SpelledBy(p, bodies, m, stop, v);
    PathPrepended(p, bodies, n, m, stop, rest);
    InCat(NodeLang(p, bodies, n), Words(p, bodies, Trim(rest, stop)), u, v);
    PathSpells(p, bodies, n, stop, [n] + rest, w);
  }

  /** One step of the language: a node runs, then what runs after one of its forward flows. */
  lemma Onwards(p: Process, bodies: Bodies, n: Node, stop: Option<Node>)
    requires Some(n) != stop && Nexts(p, n) != []
    ensures PathLang(p, bodies, n, stop) == Cat(NodeLang(p, bodies, n), NextsLang(p, bodies, Nexts(p, n), stop))
  {
    hide *;
    forall w
      ensures w in PathLang(p, bodies, n, stop) <==>
              w in Cat(NodeLang(p, bodies, n), NextsLang(p, bodies, Nexts(p, n), stop))
    {
      if w in PathLang(p, bodies, n, stop) {
        SpellsFirst(p, bodies, n, stop, w);
      }
      if w in Cat(NodeLang(p, bodies, n), NextsLang(p, bodies, Nexts(p, n), stop)) {
        FirstSpells(p, bodies, n, stop, w);
      }
    }
  }

  // ----- splitting at a post-dominator -----

  // d lies on every maximal forward path from n.
  ghost predicate OnEveryPath(p: Process, d: Node, n: Node) {
    PostDominates(ForwardGraph(p), d, n)
  }

  lemma OnEveryNext(p: Process, d: Node, n: Node)
    requires OnEveryPath(p, d, n) && d != n
    ensures Nexts(p, n) != []
    ensures forall m :: m in Nexts(p, n) ==> OnEveryPath(p, d, m)
  {
    hide Nexts, ForwardGraph;
    var F := ForwardGraph(p);
    NextsAreEdges(p, n);
    assert Outs(F, n) == [] ==> MaxPath(F, [n], n);
    forall m | m in Nexts(p, n)
      ensures OnEveryPath(p, d, m)
    {
      forall q | MaxPath(F, q, m)
        ensures d in q
      {
        assert HasEdge(F, n, m);
        assert ([n] + q)[1..] == q;
        assert MaxPath(F, [n] + q, n);
        assert d in [n] + q;
      }
    }
  }

  lemma OnEveryRank(p: Process, rank: map<Node, nat>, d: Node, n: Node)
    requires Ranked(ForwardGraph(p), rank) && n in rank && OnEveryPath(p, d, n)
    ensures d in rank && (d != n ==> rank[d] < rank[n])
  {
    hide PD;
    PDIffPostDominates(ForwardGraph(p), rank, n, d);
    PDRank(ForwardGraph(p), rank, n, d);
  }

  lemma NextsRanked(p: Process, rank: map<Node, nat>, n: Node)
    requires Ranked(ForwardGraph(p), rank) && n in rank
    ensures forall m :: m in Nexts(p, n) ==> m in rank && rank[m] < rank[n]
  {
    hide Nexts, ForwardGraph;
    NextsAreEdges(p, n);
  }

  lemma {:induction false} LeadsThere(p: Process, rank: map<Node, nat>, x: Node, m: Node)
    requires Ranked(ForwardGraph(p), rank) && m in rank && OnEveryPath(p, x, m)
    ensures Reaches(ForwardGraph(p), m, x)
    decreases rank[m]
  {
    hide OnEveryPath, ForwardGraph, Nexts, Ranked, Reaches;
    if m == x {
      ReachesSelf(ForwardGraph(p), m);
    } else {
      OnEveryNext(p, x, m);
      NextsRanked(p, rank, m);
      NextsAreEdges(p, m);
      var k := Nexts(p, m)[0];
      LeadsThere(p, rank, x, k);
      ReachesStep(ForwardGraph(p), m, k, x);
    }
  }

  /**
   * Where j lies on every path from n, a run from n is a run up to j and then
   * one from j, whether it goes on to the end or to a stop node after j.
   */
  lemma {:induction false} SplitAt(p: Process, bodies: Bodies, rank: map<Node, nat>, n: Node, j: Node,
                                   stop: Option<Node>)
    requires Ranked(ForwardGraph(p), rank) && n in rank && OnEveryPath(p, j, n)
    requires stop.Some? ==> OnEveryPath(p, stop.value, n) && OnEveryPath(p, stop.value, j)
    ensures PathLang(p, bodies, n, stop) == Cat(PathLang(p, bodies, n, Some(j)), PathLang(p, bodies, j, stop))
    decreases rank[n], 1, 0
  {
    hide *;
    if n == j {
      AtStop(p, bodies, n);
      CatEpsLeft(PathLang(p, bodies, j, stop));
    } else {
      OnEveryNext(p, j, n);
      OnEveryRank(p, rank, j, n);
      if stop.Some? {
        OnEveryRank(p, rank, stop.value, j);
        OnEveryNext(p, stop.value, n);
      }
      var A := NodeLang(p, bodies, n);
      Onwards(p, bodies, n, stop);
      Onwards(p, bodies, n, Some(j));
      NextsRanked(p, rank, n);
      SplitNexts(p, bodies, rank, Nexts(p, n), rank[n], j, stop);
      CatAssoc(A, NextsLang(p, bodies, Nexts(p, n), Some(j)), PathLang(p, bodies, j, stop));
    }
  }

  lemma {:induction false} SplitNexts(p: Process, bodies: Bodies, rank: map<Node, nat>, ms: seq<Node>, bound: nat,
                                      j: Node, stop: Option<Node>)
    requires Ranked(ForwardGraph(p), rank)
    requires forall m :: m in ms ==> m in rank && rank[m] < bound && OnEveryPath(p, j, m)
    requires stop.Some? ==> OnEveryPath(p, stop.value, j) && forall m :: m in ms ==> OnEveryPath(p, stop.value, m)
    ensures NextsLang(p, bodies, ms, stop) == Cat(NextsLang(p, bodies, ms, Some(j)), PathLang(p, bodies, j, stop))
    decreases bound, 0, |ms|
  {
    hide PathLang, Cat, OnEveryPath, ForwardGraph, Ranked;
    var K := PathLang(p, bodies, j, stop);
    if ms == [] {
      CatNone(K);
    } else {
      SplitAt(p, bodies, rank, ms[0], j, stop);
      SplitNexts(p, bodies, rank, ms[1..], bound, j, stop);
      CatUnion(PathLang(p, bodies, ms[0], Some(j)), NextsLang(p, bodies, ms[1..], Some(j)), K);
    }
  }
}

/** A process as it is declared, and the graph built from it (`BuildGraph` in graph.go). */
module Definitions {
  import opened Graphs
  import opened Bpmn

  datatype Boundary = Boundary(id: Node, timer: bool, error: bool, message: bool)

  datatype Definition = Definition(
    startEvents: seq<Node>, endEvents: seq<Node>,
    userTasks: seq<Node>, sendTasks: seq<Node>, receiveTasks: seq<Node>,
    parallels: seq<Node>, exclusives: seq<Node>, inclusives: seq<Node>,
    subProcesses: seq<Node>, callActivities: seq<Node>,
    boundaries: seq<Boundary>,
    flows: seq<Edge>)

  datatype Element = Element(id: Node, kind: Kind)

  function Tagged(ids: seq<Node>, kind: Kind): seq<Element> {
    seq(|ids|, i requires 0 <= i < |ids| => Element(ids[i], kind))
  }

  function BoundaryKind(b: Boundary): Kind {
    if b.timer then TimerBoundaryEvent
    else if b.error then ErrorBoundaryEvent
    else if b.message then MessageBoundaryEvent
    else BoundaryEvent
  }

  function TaggedBoundaries(bs: seq<Boundary>): seq<Element> {
    seq(|bs|, i requires 0 <= i < |bs| => Element(bs[i].id, BoundaryKind(bs[i])))
  }

  // The elements in the order they are registered.
  function Elements(d: Definition): seq<Element> {
    Tagged(d.startEvents, StartEvent) + Tagged(d.endEvents, EndEvent)
    + Tagged(d.userTasks, UserTask) + Tagged(d.sendTasks, SendTask) + Tagged(d.receiveTasks, ReceiveTask)
    + Tagged(d.parallels, ParallelGateway) + Tagged(d.exclusives, ExclusiveGateway) 
    + Tagged(d.inclusives, InclusiveGateway)
    + Tagged(d.subProcesses, SubProcess) + Tagged(d.callActivities, CallActivity)
    + TaggedBoundaries(d.boundaries)
  }

  // No id is declared twice (ValidateDuplicateIDs).
  ghost predicate UniqueIds(d: Definition) {
    forall i, j :: 0 <= i < j < |Elements(d)| ==> Elements(d)[i].id != Elements(d)[j].id
  }

  predicate IsBoundaryKind(k: Kind) {
    k.BoundaryEvent? || k.TimerBoundaryEvent? || k.ErrorBoundaryEvent? || k.MessageBoundaryEvent?
  }

  predicate HasBoundary(bs: seq<Boundary>, n: Node, k: Kind) {
    exists b | b in bs :: b.id == n && BoundaryKind(b) == k
  }

  // Whether d declares n as a k.
  predicate Declares(d: Definition, n: Node, k: Kind) {
    match k
    case StartEvent => n in d.startEvents
    case EndEvent => n in d.endEvents
    case UserTask => n in d.userTasks
    case SendTask => n in d.sendTasks
    case ReceiveTask => n in d.receiveTasks
    case ParallelGateway => n in d.parallels
    case ExclusiveGateway => n in d.exclusives
    case InclusiveGateway => n in d.inclusives
    case SubProcess => n in d.subProcesses
    case CallActivity => n in d.callActivities
    case _ => HasBoundary(d.boundaries, n, k)
  }

  lemma TaggedHas(ids: seq<Node>, k: Kind, n: Node, k': Kind)
    ensures Element(n, k') in Tagged(ids, k) <==> n in ids && k' == k
  {
    if n in ids && k' == k {
      var i :| 0 <= i < |ids| && ids[i] == n;
      assert Tagged(ids, k)[i] == Element(n, k');
    }
  }

  lemma BoundariesHave(bs: seq<Boundary>, n: Node, k: Kind)
    ensures Element(n, k) in TaggedBoundaries(bs) <==> HasBoundary(bs, n, k)
    ensures HasBoundary(bs, n, k) ==> IsBoundaryKind(k)
  {
    if b :| b in bs && b.id == n && BoundaryKind(b) == k {
      var i :| 0 <= i < |bs| && bs[i] == b;
      assert TaggedBoundaries(bs)[i] == Element(n, k);
    }
  }

  lemma ElementsAre(d: Definition, e: Element)
    ensures e in Elements(d) <==>
              || e in Tagged(d.startEvents, StartEvent) || e in Tagged(d.endEvents, EndEvent)
              || e in Tagged(d.userTasks, UserTask) || e in Tagged(d.sendTasks, SendTask)
              || e in Tagged(d.receiveTasks, ReceiveTask) || e in Tagged(d.parallels, ParallelGateway)
              || e in Tagged(d.exclusives, ExclusiveGateway) || e in Tagged(d.inclusives, InclusiveGateway)
              || e in Tagged(d.subProcesses, SubProcess) || e in Tagged(d.callActivities, CallActivity)
              || e in TaggedBoundaries(d.boundaries)
  {
    hide Tagged, TaggedBoundaries;
  }

  lemma DeclaredIsElement(d: Definition, n: Node, k: Kind)
    ensures Declares(d, n, k) <==> Element(n, k) in Elements(d)
  {
    hide Tagged, TaggedBoundaries, Elements, HasBoundary;
    ElementsAre(d, Element(n, k));
    TaggedHas(d.startEvents, StartEvent, n, k);
    TaggedHas(d.endEvents, EndEvent, n, k);
    TaggedHas(d.userTasks, UserTask, n, k);
    TaggedHas(d.sendTasks, SendTask, n, k);
    TaggedHas(d.receiveTasks, ReceiveTask, n, k);
    TaggedHas(d.parallels, ParallelGateway, n, k);
    TaggedHas(d.exclusives, ExclusiveGateway, n, k);
    TaggedHas(d.inclusives, InclusiveGateway, n, k);
    TaggedHas(d.subProcesses, SubProcess, n, k);
    TaggedHas(d.callActivities, CallActivity, n, k);
    BoundariesHave(d.boundaries, n, k);
  }

  // The targets of the flows out of n, in document order.
  function TargetsFrom(flows: seq<Edge>, n: Node): seq<Node> {
    if flows == [] then []
    else TargetsFrom(flows[..|flows|-1], n) + if flows[|flows|-1].from == n then [flows[|flows|-1].to] else []
  }

  function SourcesOf(flows: seq<Edge>, n: Node): seq<Node> {
    if flows == [] then []
    else SourcesOf(flows[..|flows|-1], n) + if flows[|flows|-1].to == n then [flows[|flows|-1].from] else []
  }

  /** g is what d declares: its nodes and kinds, and its flows in both directions. */
  ghost predicate Built(d: Definition, g: Graph) {
    && g.nodes == g.kind.Keys
    && (forall n :: n in g.kind ==> Declares(d, n, g.kind[n]))
    && (forall n, k :: Declares(d, n, k) ==> n in g.kind)
    && (forall n :: Outs(g.outgoing, n) == TargetsFrom(d.flows, n))
    && (forall n :: Outs(g.incoming, n) == SourcesOf(d.flows, n))
  }

  /** With unique ids the graph gives each node the one kind it is declared with. */
  lemma KindIsDeclared(d: Definition, g: Graph, n: Node, k: Kind)
    requires Built(d, g) && UniqueIds(d)
    ensures HasKind(g, n, k) <==> Declares(d, n, k)
  {
    hide Elements;
    if Declares(d, n, k) {
      DeclaredIsElement(d, n, k);
      DeclaredIsElement(d, n, g.kind[n]);
      var i :| 0 <= i < |Elements(d)| && Elements(d)[i] == Element(n, k);
      var j :| 0 <= j < |Elements(d)| && Elements(d)[j] == Element(n, g.kind[n]);
      assert i == j;
    }
  }

  // k is the kind of the last element with id n.
  ghost predicate LastOf(elements: seq<Element>, n: Node, k: Kind) {
    exists i :: 0 <= i < |elements| && elements[i] == Element(n, k) && forall j :: i < j < |elements| ==>
        elements[j].id != n
  }

  lemma LastSnoc(elements: seq<Element>, e: Element, n: Node, k: Kind)
    requires if n == e.id then k == e.kind else LastOf(elements, n, k)
    ensures LastOf(elements + [e], n, k)
  {
    var more := elements + [e];
    if n == e.id {
      assert more[|elements|] == Element(n, k);
    } else {
      var i :| 0 <= i < |elements| && elements[i] == Element(n, k) && forall j :: i < j < |elements| ==>
          elements[j].id != n;
      assert more[i] == Element(n, k);
    }
  }

  method Register(d: Definition) returns (kind: map<Node, Kind>)
    ensures forall n :: n in kind ==> LastOf(Elements(d), n, kind[n])
    ensures forall n :: n in kind ==> Declares(d, n, kind[n])
    ensures forall n, k :: Declares(d, n, k) ==> n in kind
  {
    hide Elements, Declares, LastOf;
    kind := map[];
    var elements := Elements(d);
    for i := 0 to |elements|
      invariant forall n :: n in kind ==> Element(n, kind[n]) in elements && LastOf(elements[..i], n, kind[n])
      invariant forall j :: 0 <= j < i ==> elements[j].id in kind
    {
      assert elements[..i + 1] == elements[..i] + [elements[i]];
      ghost var before := kind;
      kind := kind[elements[i].id := elements[i].kind];
      forall n | n in kind
        ensures LastOf(elements[..i + 1], n, kind[n])
      {
        assert n != elements[i].id ==> n in before && LastOf(elements[..i], n, kind[n]);
        LastSnoc(elements[..i], elements[i], n, kind[n]);
      }
    }
    assert elements[..|elements|] == elements;
    forall n | n in kind
      ensures Declares(d, n, kind[n])
    {
      DeclaredIsElement(d, n, kind[n]);
    }
    forall n, k | Declares(d, n, k)
      ensures n in kind
    {
      DeclaredIsElement(d, n, k);
      var j :| 0 <= j < |elements| && elements[j] == Element(n, k);
    }
  }

  // out and inc are the flows, by source and by target.
  ghost predicate Linked(flows: seq<Edge>, out: Succ, inc: Succ) {
    && (forall n :: Outs(out, n) == TargetsFrom(flows, n))
    && (forall n :: Outs(inc, n) == SourcesOf(flows, n))
  }

  lemma OutOne(flows: seq<Edge>, f: Edge, out: Succ, n: Node)
    requires Outs(out, n) == TargetsFrom(flows, n) && Outs(out, f.from) == TargetsFrom(flows, f.from)
    ensures Outs(out[f.from := Outs(out, f.from) + [f.to]], n) == TargetsFrom(flows + [f], n)
  {
    assert (flows + [f])[..|flows|] == flows;
  }

  lemma InOne(flows: seq<Edge>, f: Edge, inc: Succ, n: Node)
    requires Outs(inc, n) == SourcesOf(flows, n) && Outs(inc, f.to) == SourcesOf(flows, f.to)
    ensures Outs(inc[f.to := Outs(inc, f.to) + [f.from]], n) == SourcesOf(flows + [f], n)
  {
    assert (flows + [f])[..|flows|] == flows;
  }

  lemma LinksOne(flows: seq<Edge>, f: Edge, out: Succ, inc: Succ)
    requires Linked(flows, out, inc)
    ensures Linked(flows + [f], out[f.from := Outs(out, f.from) + [f.to]], inc[f.to := Outs(inc, f.to) + [f.from]])
  {
    hide Outs, TargetsFrom, SourcesOf;
    var out', inc' := out[f.from := Outs(out, f.from) + [f.to]], inc[f.to := Outs(inc, f.to) + [f.from]];
    forall n
      ensures Outs(out', n) == TargetsFrom(flows + [f], n)
      ensures Outs(inc', n) == SourcesOf(flows + [f], n)
    {
      OutOne(flows, f, out, n);
      InOne(flows, f, inc, n);
    }
  }

  /** A node declared twice has the kind it was registered with last. */
  method BuildGraph(d: Definition) returns (g: Graph)
    ensures Built(d, g) && forall n :: n in g.kind ==> LastOf(Elements(d), n, g.kind[n])
  {
    hide Declares, LastOf, Elements, Linked, TargetsFrom, SourcesOf;
    var kind := Register(d);
    var outgoing: Succ, incoming: Succ := map[], map[];
    NothingLinked();
    for i := 0 to |d.flows|
      invariant Linked(d.flows[..i], outgoing, incoming)
    {
      var f := d.flows[i];
      assert d.flows[..i + 1] == d.flows[..i] + [f];
      LinksOne(d.flows[..i], f, outgoing, incoming);
      outgoing := outgoing[f.from := Outs(outgoing, f.from) + [f.to]];
      incoming := incoming[f.to := Outs(incoming, f.to) + [f.from]];
    }
    assert d.flows[..|d.flows|] == d.flows;
    LinksAll(d.flows, outgoing, incoming);
    g := Graph(outgoing, incoming, kind, kind.Keys);
  }

  lemma NothingLinked()
    ensures Linked([], map[], map[])
  {
  }

  lemma LinksAll(flows: seq<Edge>, out: Succ, inc: Succ)
    requires Linked(flows, out, inc)
    ensures forall n :: Outs(out, n) == TargetsFrom(flows, n)
    ensures forall n :: Outs(inc, n) == SourcesOf(flows, n)
  {
  }

  // ----- flows and edges -----

  lemma {:induction false} TargetsAreFlows(flows: seq<Edge>, n: Node, m: Node)
    ensures m in TargetsFrom(flows, n) <==> Edge(n, m) in flows
    ensures n in SourcesOf(flows, m) <==> Edge(n, m) in flows
  {
    if flows != [] {
      TargetsAreFlows(flows[..|flows|-1], n, m);
      assert flows == flows[..|flows|-1] + [flows[|flows|-1]];
    }
  }

  lemma EdgesAreFlows(d: Definition, g: Graph, n: Node, m: Node)
    requires Built(d, g)
    ensures HasEdge(g.outgoing, n, m) <==> Edge(n, m) in d.flows
    ensures HasEdge(g.incoming, m, n) <==> Edge(n, m) in d.flows
  {
    TargetsAreFlows(d.flows, n, m);
  }
}

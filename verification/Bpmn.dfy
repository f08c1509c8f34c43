/** The parts of a process graph the compiler and the validator look at (types.go, graph.go). */
module Bpmn {
  import opened Graphs

  datatype Kind =
    | StartEvent | EndEvent | UserTask | SendTask | ReceiveTask
    | ParallelGateway | ExclusiveGateway | InclusiveGateway
    | SubProcess | CallActivity
    | BoundaryEvent | TimerBoundaryEvent | ErrorBoundaryEvent | MessageBoundaryEvent

  datatype Graph = Graph(outgoing: Succ, incoming: Succ, kind: map<Node, Kind>, nodes: set<Node>)

  predicate HasKind(g: Graph, n: Node, k: Kind) {
    n in g.kind && g.kind[n] == k
  }

  predicate IsEnd(g: Graph, n: Node) {
    HasKind(g, n, EndEvent)
  }
}

/**
 * The callback depth-first search other passes are built on (bpmncore/dfs.go).
 * A client describes its callbacks as state transformers and proves an
 * invariant of single search steps; the search hands it back at the end.
 */
module Dfs {
  import opened Graphs
  import opened Sets

  datatype Frame = Frame(node: Node, entered: bool, next: nat)

  datatype Stack = Bottom | Push(top: Frame, below: Stack)

  datatype Config<S> = Config(s: S, visited: set<Node>, stack: Stack)

  datatype Visitor<!S> = Visitor(
    onEnter: (S, Node) -> (S, bool),
    onEdge: (S, Node, Node, bool) -> (S, bool),
    onExit: (S, Node) -> S)

  // First half of an iteration: a frame seen for the first time is entered or dropped.
  function Enter<S>(v: Visitor<S>, c: Config<S>): Config<S>
    requires c.stack.Push? && !c.stack.top.entered
  {
    var (s, stay) := v.onEnter(c.s, c.stack.top.node);
    Config(s, c.visited, if stay then Push(c.stack.top.(entered := true), c.stack.below) else c.stack.below)
  }

  // Second half: the next edge is offered, or the exhausted frame is popped.
  function Advance<S>(G: Succ, v: Visitor<S>, c: Config<S>): Config<S>
    requires c.stack.Push? && c.stack.top.entered
  {
    var top := c.stack.top;
    var children := Outs(G, top.node);
    if top.next >= |children| then
      Config(v.onExit(c.s, top.node), c.visited, c.stack.below)
    else
      var next := children[top.next];
      var seen := next in c.visited;
      var (s, descend) := v.onEdge(c.s, top.node, next, seen);
      var stack := Push(top.(next := top.next + 1), c.stack.below);
      if descend && !seen then Config(s, c.visited + {next}, Push(Frame(next, false, 0), stack))
      else Config(s, c.visited, stack)
  }

  function Start<S>(s: S, root: Node): Config<S> {
    Config(s, {root}, Push(Frame(root, false, 0), Bottom))
  }

  // Work left on the stack when no further node is pushed.
  ghost function Work(G: Succ, stack: Stack): nat {
    match stack
    case Bottom => 0
    case Push(f, below) =>
      var left := |Outs(G, f.node)| - f.next;
      Work(G, below) + 1 + (if f.entered then 0 else 1) + (if left > 0 then left else 0)
  }

  // A step schedules a new node or leaves less work on the stack.
  lemma AdvanceWorks<S>(G: Succ, universe: set<Node>, v: Visitor<S>, c: Config<S>)
    requires c.stack.Push? && c.stack.top.entered
    requires forall u, w :: HasEdge(G, u, w) ==> w in universe
    ensures var d := Advance(G, v, c);
      |universe - d.visited| < |universe - c.visited| || (d.visited == c.visited && Work(G, d.stack) < Work(G, c.stack))
  {
    var top := c.stack.top;
    if top.next < |Outs(G, top.node)| {
      var next := Outs(G, top.node)[top.next];
      assert HasEdge(G, top.node, next);
      if next !in c.visited {
        FewerLeft(universe, c.visited, c.visited + {next}, next);
      }
    }
  }

  /**
   * The search keeps every invariant its single steps keep, and it terminates:
   * each node is pushed at most once and every other step consumes an edge.
   */
  method IterativeDFS<S(!new)>(G: Succ, start: Node, v: Visitor<S>, s0: S, ghost inv: Config<S> -> bool) returns (s: S)
    requires inv(Start(s0, start))
    requires forall c: Config<S> :: inv(c) && c.stack.Push? && !c.stack.top.entered ==> inv(Enter(v, c))
    requires forall c: Config<S> :: inv(c) && c.stack.Push? && c.stack.top.entered ==> inv(Advance(G, v, c))
    ensures exists visited :: inv(Config(s, visited, Bottom))
  {
    var c := Start(s0, start);
    ghost var universe := Targets(G);
    while c.stack.Push?
      invariant inv(c)
      decreases |universe - c.visited|, Work(G, c.stack)
    {
      if !c.stack.top.entered {
        c := Enter(v, c);
      } else {
        AdvanceWorks(G, universe, v, c);
        c := Advance(G, v, c);
      }
    }
    s := c.s;
    assert c == Config(s, c.visited, Bottom);
  }
}

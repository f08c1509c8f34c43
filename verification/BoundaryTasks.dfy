/**
 * Where boundary events lead, and the department a sub-process is placed in: what
 * the searches along first forward flows and first steps come to.
 */
module BoundaryTasks {
  import opened Wrappers
  import opened Graphs
  import opened Bpmn
  import opened Plans
  import opened Traversal

  predicate IsWork(p: Process, n: Node) {
    n !in p.skipped && (HasKind(p.g, n, UserTask) || HasKind(p.g, n, SubProcess))
  }

  // Each node of the chain is the target of the first forward flow of the one before.
  ghost predicate Chain(p: Process, path: seq<Node>) {
    && path != []
    && forall i {:trigger path[i]} :: 0 <= i < |path| - 1 ==>
        Nexts(p, path[i]) != [] && path[i + 1] == Nexts(p, path[i])[0]
  }

  // The chain ends at its first task or sub-process.
  ghost predicate EndsAtWork(p: Process, path: seq<Node>) {
    Chain(p, path) && forall i {:trigger path[i]} :: 0 <= i < |path| ==> (IsWork(p, path[i]) <==> i == |path| - 1)
  }

  lemma {:induction false} AheadIsChained(p: Process, n: Node, unseen: set<Node>) returns (path: seq<Node>)
    requires TaskAhead(p, n, unseen).Some?
    ensures EndsAtWork(p, path) && path[0] == n && path[|path|-1] == TaskAhead(p, n, unseen).value
    decreases |unseen|
  {
    hide Nexts;
    if IsWork(p, n) {
      path := [n];
    } else {
      var rest := AheadIsChained(p, Nexts(p, n)[0], unseen - {n});
      path := [n] + rest;
      assert forall i :: 0 < i < |path| ==> path[i] == rest[i - 1];
    }
  }

  lemma ChainStep(p: Process, path: seq<Node>, i: nat, m: nat)
    requires Chain(p, path) && m == i + 1 && m < |path|
    ensures Nexts(p, path[i]) != [] && path[m] == Nexts(p, path[i])[0]
  {
    hide Nexts;
  }

  // From where the chain comes twice to a node, it goes on as before.
  lemma {:induction false} GoesOnAsBefore(p: Process, path: seq<Node>, i: nat, j: nat, k: nat)
    requires Chain(p, path) && i <= j && j + k < |path| && path[i] == path[j]
    ensures path[i + k] == path[j + k]
    decreases k
  {
    hide Nexts, Chain;
    if k > 0 {
      assert |path| > 0;
      GoesOnAsBefore(p, path, i, j, k - 1);
      ChainStep(p, path, i + k - 1, i + k);
      ChainStep(p, path, j + k - 1, j + k);
    }
  }

  lemma NeverTwice(p: Process, path: seq<Node>, i: nat, j: nat)
    requires EndsAtWork(p, path) && i < j < |path|
    ensures path[i] != path[j]
  {
    hide Nexts;
    if path[i] == path[j] {
      GoesOnAsBefore(p, path, i, j, |path| - 1 - j);
    }
  }

  lemma ChainTail(p: Process, path: seq<Node>)
    requires EndsAtWork(p, path) && |path| > 1
    ensures EndsAtWork(p, path[1..]) && Nexts(p, path[0]) != [] && path[1] == Nexts(p, path[0])[0]
    ensures !IsWork(p, path[0])
  {
    hide Nexts, IsWork;
    var rest := path[1..];
    assert path[0 + 1] == Nexts(p, path[0])[0];
    forall i {:trigger rest[i]} | 0 <= i < |rest|
      ensures IsWork(p, rest[i]) <==> i == |rest| - 1
      ensures i < |rest| - 1 ==> Nexts(p, rest[i]) != [] && rest[i + 1] == Nexts(p, rest[i])[0]
    {
      assert rest[i] == path[i + 1];
      if i < |rest| - 1 {
        assert path[i + 1 + 1] == Nexts(p, path[i + 1])[0];
      }
    }
  }

  lemma {:induction false} ChainIsFound(p: Process, path: seq<Node>, unseen: set<Node>)
    requires EndsAtWork(p, path) && forall i {:trigger path[i]} :: 0 <= i < |path| ==> path[i] in unseen
    ensures TaskAhead(p, path[0], unseen) == Some(path[|path|-1])
    decreases |path|
  {
    hide Nexts;
    if |path| == 1 {
      assert IsWork(p, path[0]);
    } else {
      ChainTail(p, path);
      var rest := path[1..];
      forall i {:trigger rest[i]} | 0 <= i < |rest|
        ensures rest[i] in unseen - {path[0]}
      {
        NeverTwice(p, path, 0, i + 1);
        assert rest[i] == path[i + 1];
      }
      hide EndsAtWork;
      ChainIsFound(p, rest, unseen - {path[0]});
    }
  }

  // The chain starts where the boundary event leads.
  ghost predicate LeadsTo(p: Process, be: Node, path: seq<Node>, n: Node) {
    EndsAtWork(p, path) && FirstTarget(p, be) == Some(path[0]) && path[|path|-1] == n
  }

  /**
   * A boundary event leads to the first user task or sub-process, not skipped,
   * along first forward flows from its own first flow's target; to none if that
   * chain ends or closes before.
   */
  lemma LeadsToFirstWork(p: Process, be: Node, n: Node)
    ensures BoundaryTask(p, be) == Some(n) <==> exists path :: LeadsTo(p, be, path, n)
  {
    hide Nexts, IsWork, TaskAhead;
    if BoundaryTask(p, be) == Some(n) {
      var target := FirstTarget(p, be).value;
      var path := AheadIsChained(p, target, {target} + Targets(p.g.outgoing));
      assert LeadsTo(p, be, path, n);
    }
    if path :| LeadsTo(p, be, path, n) {
      ChainKnown(p, path);
      ChainIsFound(p, path, {path[0]} + Targets(p.g.outgoing));
    }
  }

  lemma ChainKnown(p: Process, path: seq<Node>)
    requires EndsAtWork(p, path)
    ensures forall i {:trigger path[i]} :: 0 <= i < |path| ==> path[i] in {path[0]} + Targets(p.g.outgoing)
  {
    hide IsWork;
    forall i {:trigger path[i]} | 0 < i < |path|
      ensures path[i] in Targets(p.g.outgoing)
    {
      var before := path[i - 1];
      ChainStep(p, path, i - 1, i);
      assert Nexts(p, before)[0] in Nexts(p, before);
      assert path[i] in Outs(p.g.outgoing, before);
    }
  }

  /** A task starts a segment of its own exactly when a boundary event of the process leads to it. */
  lemma StartsWhereLedTo(p: Process, n: Node)
    ensures StartsSegment(p, n) <==> exists be, path :: be in p.boundaries && LeadsTo(p, be, path, n)
  {
    hide BoundaryTask, LeadsTo;
    if StartsSegment(p, n) {
      var be :| be in p.boundaries && BoundaryTask(p, be) == Some(n);
      LeadsToFirstWork(p, be, n);
    }
    if be, path :| be in p.boundaries && LeadsTo(p, be, path, n) {
      LeadsToFirstWork(p, be, n);
    }
  }

  // ----- the first department of steps -----

  // The first branch that has a department at its start.
  ghost predicate FirstOf(bs: seq<Branch>, i: int, s: Segment) {
    && 0 <= i < |bs| && bs[i].Onward? && FirstDepartment(bs[i].steps) == Some(s)
    && forall j {:trigger bs[j]} :: 0 <= j < i && bs[j].Onward? ==> FirstDepartment(bs[j].steps) == None
  }

  lemma {:induction false} FirstBranch(bs: seq<Branch>, s: Segment)
    ensures FirstInBranches(bs) == Some(s) <==> exists i :: FirstOf(bs, i, s)
  {
    hide FirstDepartment;
    if bs != [] {
      var rest := bs[1..];
      FirstBranch(rest, s);
      if i :| FirstOf(rest, i, s) {
        assert rest[i] == bs[i + 1];
        assert (bs[0].Onward? ==> FirstDepartment(bs[0].steps) == None) ==> FirstOf(bs, i + 1, s);
      }
      if i :| FirstOf(bs, i, s) {
        if i > 0 {
          assert rest[i - 1] == bs[i];
          assert FirstOf(rest, i - 1, s);
        }
      }
      if bs[0].Onward? && FirstDepartment(bs[0].steps) == Some(s) {
        assert FirstOf(bs, 0, s);
      }
    }
  }

  lemma {:induction false} FirstInEither(a: seq<Branch>, b: seq<Branch>)
    ensures FirstInBranches(a + b) == if FirstInBranches(a).Some? then FirstInBranches(a) else FirstInBranches(b)
  {
    hide FirstDepartment;
    if a == [] {
      assert a + b == b;
    } else {
      FirstInEither(a[1..], b);
      assert (a + b)[1..] == a[1..] + b && (a + b)[0] == a[0];
    }
  }

  /**
   * Steps start at the first department of their first step: of a sequential
   * step the first it names, of a sub-process that of its own steps, of a gateway
   * that of the first branch to have one, parallel branches before exclusive ones.
   */
  lemma StartsAt(steps: seq<Step>, s: Segment)
    requires steps != []
    ensures FirstDepartment(steps) == Some(s) <==>
              || (steps[0].Sequential? && s in steps[0].departments && s == steps[0].departments[0])
              || (steps[0].SubWorkflow? && FirstDepartment(steps[0].steps) == Some(s))
              || (steps[0].Gateway? && exists i :: FirstOf(steps[0].parallel + steps[0].exclusive, i, s))
  {
    hide FirstOf;
    if steps[0].Gateway? {
      FirstInEither(steps[0].parallel, steps[0].exclusive);
      FirstBranch(steps[0].parallel + steps[0].exclusive, s);
    }
  }
}

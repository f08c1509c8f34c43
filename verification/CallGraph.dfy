/**
 * The call graph of one file (call_graph.go): a three-colour search that
 * reports call cycles and adds up, saturated, what each process expands to.
 */
module CallGraph {
  import opened Wrappers
  import opened Graphs
  import opened Sets

  const MAX_USER_TASKS: nat := 1000

  // A call, and the id of the process it names, if it names one.
  datatype Call = Call(id: Node, called: Option<Node>)

  datatype Proc = Proc(id: Node, userTasks: nat, calls: seq<Call>, ignored: bool)

  type Defs = seq<Proc>

  function Ids(defs: Defs): set<Node> {
    set p | p in defs :: p.id
  }

  function FirstWith(defs: Defs, id: Node): Option<Proc> {
    if defs == [] then None else if defs[0].id == id then Some(defs[0]) else FirstWith(defs[1..], id)
  }

  // The process a call of p leads to; a process that is ignored calls nothing.
  function CalledBy(defs: Defs, p: Proc, ca: Call): Option<Node> {
    if p.ignored || ca.called.None? || FirstWith(defs, ca.called.value).None? then None else ca.called
  }

  function TargetsOf(defs: Defs, p: Proc, calls: seq<Call>): seq<Node> {
    if calls == [] then []
    else
      var last := CalledBy(defs, p, calls[|calls|-1]);
      TargetsOf(defs, p, calls[..|calls|-1]) + if last.None? then [] else [last.value]
  }

  /** Who calls whom. */
  function CallsOf(defs: Defs): Succ {
    map id | id in Ids(defs) && FirstWith(defs, id).Some? ::
      TargetsOf(defs, FirstWith(defs, id).value, FirstWith(defs, id).value.calls)
  }

  function TasksOf(defs: Defs, id: Node): nat {
    match FirstWith(defs, id)
    case Some(p) => p.userTasks
    case None => 0
  }

  /** The size of a process with every call expanded, each call counting one: by rank, so only without cycles. */
  ghost function Expanded(defs: Defs, rank: map<Node, nat>, id: Node): nat
    requires Ranked(CallsOf(defs), rank) && id in rank
    decreases rank[id] + 1, 0
  {
    assert forall t :: t in Outs(CallsOf(defs), id) ==> HasEdge(CallsOf(defs), id, t);
    TasksOf(defs, id) + ExpandedCalls(defs, rank, Outs(CallsOf(defs), id), rank[id])
  }

  ghost function ExpandedCalls(defs: Defs, rank: map<Node, nat>, ts: seq<Node>, bound: nat): nat
    requires Ranked(CallsOf(defs), rank) && forall t :: t in ts ==> t in rank && rank[t] < bound
    decreases bound, |ts|
  {
    if ts == [] then 0
    else ExpandedCalls(defs, rank, ts[..|ts|-1], bound) + 1 + Expanded(defs, rank, ts[|ts|-1])
  }

  lemma {:induction false} ExpandedAgrees(defs: Defs, rank: map<Node, nat>, rank': map<Node, nat>, id: Node)
    requires Ranked(CallsOf(defs), rank) && Ranked(CallsOf(defs), rank') && id in rank && id in rank'
    ensures Expanded(defs, rank, id) == Expanded(defs, rank', id)
    decreases rank[id] + 1, 0
  {
    hide CallsOf;
    var ts := Outs(CallsOf(defs), id);
    assert forall t :: t in ts ==> HasEdge(CallsOf(defs), id, t);
    ExpandedCallsAgree(defs, rank, rank', ts, rank[id], rank'[id]);
  }

  lemma {:induction false} ExpandedCallsAgree(defs: Defs, rank: map<Node, nat>, rank': map<Node, nat>, ts: seq<Node>,
                                              bound: nat, bound': nat)
    requires Ranked(CallsOf(defs), rank) && Ranked(CallsOf(defs), rank')
    requires forall t :: t in ts ==> t in rank && rank[t] < bound && t in rank' && rank'[t] < bound'
    ensures ExpandedCalls(defs, rank, ts, bound) == ExpandedCalls(defs, rank', ts, bound')
    decreases bound, |ts|
  {
    hide CallsOf, Expanded;
    if ts != [] {
      ExpandedCallsAgree(defs, rank, rank', ts[..|ts|-1], bound, bound');
      assert ts[|ts|-1] in ts;
      ExpandedAgrees(defs, rank, rank', ts[|ts|-1]);
    }
  }

  lemma {:induction false} AlikeCalls(defs: Defs, rank: map<Node, nat>, ts: seq<Node>, bound: nat, size: nat)
    requires Ranked(CallsOf(defs), rank) && forall t :: t in ts ==> t in rank && rank[t] < bound
    requires forall t :: t in ts ==> Expanded(defs, rank, t) == size
    ensures ExpandedCalls(defs, rank, ts, bound) == |ts| * (1 + size)
    decreases |ts|
  {
    hide CallsOf, Expanded;
    if ts != [] {
      AlikeCalls(defs, rank, ts[..|ts|-1], bound, size);
      assert ts[|ts|-1] in ts;
      assert |ts| * (1 + size) == (|ts| - 1) * (1 + size) + (1 + size);
    }
  }

  /**
   * A process of t user tasks with n calls, each of a process of s tasks that
   * calls nothing, expands to t + n * (1 + s).
   */
  lemma ExpandsFlat(defs: Defs, rank: map<Node, nat>, p: Proc, s: nat)
    requires Ranked(CallsOf(defs), rank) && p.id in rank && FirstWith(defs, p.id) == Some(p) && !p.ignored
    requires forall ca :: ca in p.calls ==> ca.called.Some? && FirstWith(defs, ca.called.value).Some?
    requires forall ca :: ca in p.calls ==>
               var q := FirstWith(defs, ca.called.value).value; q.userTasks == s && q.calls == []
    ensures Expanded(defs, rank, p.id) == p.userTasks + |p.calls| * (1 + s)
  {
    hide CallsOf, FirstWith;
    CallsOfProc(defs, p);
    AllLead(defs, p, p.calls);
    var ts := TargetsOf(defs, p, p.calls);
    forall t | t in ts
      ensures t in rank && rank[t] < rank[p.id] && Expanded(defs, rank, t) == s
    {
      assert HasEdge(CallsOf(defs), p.id, t);
      FirstHasId(defs, t);
      var q := FirstWith(defs, t).value;
      CallsOfProc(defs, q);
      assert Outs(CallsOf(defs), t) == [];
    }
    hide Expanded;
    AlikeCalls(defs, rank, ts, rank[p.id], s);
    assert Expanded(defs, rank, p.id) == TasksOf(defs, p.id) + ExpandedCalls(defs, rank, ts, rank[p.id]) by {
      ExpandedIs(defs, rank, p.id);
    }
  }

  lemma ExpandedIs(defs: Defs, rank: map<Node, nat>, id: Node)
    requires Ranked(CallsOf(defs), rank) && id in rank
    ensures forall t :: t in Outs(CallsOf(defs), id) ==> t in rank && rank[t] < rank[id]
    ensures Expanded(defs, rank, id) == TasksOf(defs, id) + ExpandedCalls(defs, rank, Outs(CallsOf(defs), id), rank[id])
  {
    hide CallsOf;
    assert forall t :: t in Outs(CallsOf(defs), id) ==> HasEdge(CallsOf(defs), id, t);
  }

  // Each call that names a process leads to it, in order.
  lemma {:induction false} AllLead(defs: Defs, p: Proc, calls: seq<Call>)
    requires !p.ignored
    requires forall ca :: ca in calls ==> ca.called.Some? && FirstWith(defs, ca.called.value).Some?
    ensures |TargetsOf(defs, p, calls)| == |calls|
    ensures forall i :: 0 <= i < |calls| ==> TargetsOf(defs, p, calls)[i] == calls[i].called.value
  {
    hide FirstWith;
    if calls != [] {
      assert calls[|calls|-1] in calls;
      AllLead(defs, p, calls[..|calls|-1]);
    }
  }

  // Saturated just above the limit.
  function Saturated(size: nat): nat {
    if size > MAX_USER_TASKS then MAX_USER_TASKS + 1 else size
  }

  ghost predicate HasCycle(G: Succ) {
    exists n :: OnCycle(G, n)
  }

  // ----- finding processes -----

  lemma {:induction false} FirstHasId(defs: Defs, id: Node)
    ensures FirstWith(defs, id).Some? <==> id in Ids(defs)
    ensures FirstWith(defs, id).Some? ==> FirstWith(defs, id).value.id == id && FirstWith(defs, id).value in defs
  {
    if defs != [] {
      FirstHasId(defs[1..], id);
      assert forall p :: p in defs <==> p == defs[0] || p in defs[1..];
    }
  }

  lemma CallsOfProc(defs: Defs, p: Proc)
    requires FirstWith(defs, p.id) == Some(p)
    ensures Outs(CallsOf(defs), p.id) == TargetsOf(defs, p, p.calls) && p.id in Ids(defs)
            && TasksOf(defs, p.id) == p.userTasks
  {
    FirstHasId(defs, p.id);
  }

  /** A process alone in its file is in a call cycle if and only if it calls itself and is not ignored. */
  lemma OwnCallIsCycle(p: Proc)
    ensures HasCycle(CallsOf([p])) <==> !p.ignored && exists ca :: ca in p.calls && ca.called == Some(p.id)
  {
    hide Reaches, TargetsOf, FirstWith, Ids;
    var G := CallsOf([p]);
    AloneInFile(p);
    CallsOfProc([p], p);
    OwnTargets(p, p.calls);
    if TargetsOf([p], p, p.calls) != [] {
      assert TargetsOf([p], p, p.calls)[0] in TargetsOf([p], p, p.calls);
      assert HasEdge(G, p.id, p.id);
      ReachesSelf(G, p.id);
      assert OnCycle(G, p.id);
    } else {
      assert forall n, m :: !HasEdge(G, n, m);
    }
  }

  lemma AloneInFile(p: Proc)
    ensures forall id :: FirstWith([p], id) == if id == p.id then Some(p) else None
    ensures Ids([p]) == {p.id}
  {
    assert [p][1..] == [];
    assert p in [p];
  }

  lemma {:induction false} OwnTargets(p: Proc, calls: seq<Call>)
    ensures TargetsOf([p], p, calls) != [] <==> !p.ignored && exists ca :: ca in calls && ca.called == Some(p.id)
    ensures forall t :: t in TargetsOf([p], p, calls) ==> t == p.id
  {
    if calls != [] {
      var init, last := calls[..|calls|-1], calls[|calls|-1];
      OwnTargets(p, init);
      AloneInFile(p);
      hide FirstWith;
      assert calls == init + [last];
    }
  }

  // ----- the search -----

  datatype Mark = OnChain | Finished

  // The search at one moment; rank and next, which only the proof uses, give the finishing order.
  datatype Search = Search(
    state: map<Node, Mark>,
    expanded: map<Node, nat>,
    isCalled: set<Node>,
    callers: set<Node>,
    cycles: seq<Node>,
    rank: map<Node, nat>,
    next: nat)

  const FRESH_SEARCH := Search(map[], map[], {}, {}, [], map[], 0)

  ghost predicate AllLeadTo(G: Succ, s: Search, n: Node) {
    forall m :: m in s.state && s.state[m] == OnChain ==> Reaches(G, m, n)
  }

  // Without a cycle reported, what is finished is ranked by its place in the finishing order.
  ghost predicate Orderly(defs: Defs, s: Search) {
    && Ranked(CallsOf(defs), s.rank)
    && (forall n :: n in s.rank <==> n in s.state && s.state[n] == Finished)
    && (forall n :: n in s.rank ==> s.rank[n] < s.next)
    && (forall n :: n in s.rank ==> n in s.expanded && Saturated(s.expanded[n]) == Saturated(Expanded(defs, s.rank, n)))
  }

  ghost predicate Checked(defs: Defs, s: Search) {
    if s.cycles == [] then Orderly(defs, s) else HasCycle(CallsOf(defs))
  }

  // Who was found to call, and to be called, by the processes finished.
  ghost predicate Noted(defs: Defs, s: Search) {
    && (forall n :: n in s.isCalled ==> exists m :: HasEdge(CallsOf(defs), m, n))
    && (forall n :: n in s.callers ==> Outs(CallsOf(defs), n) != [])
    && (forall m, n {:trigger HasEdge(CallsOf(defs), m, n)} ::
          m in s.state && s.state[m] == Finished && HasEdge(CallsOf(defs), m, n) ==> n in s.isCalled && m in s.callers)
  }

  // The calls of id that lead to ts are dealt with.
  ghost predicate PartWay(defs: Defs, id: Node, ts: seq<Node>, size: nat, s: Search) {
    && (forall t :: t in ts ==> t in s.isCalled && id in s.callers)
    && (s.cycles == [] ==>
          && Ranked(CallsOf(defs), s.rank) && (forall t :: t in ts ==> t in s.rank && s.rank[t] < s.next)
          && Saturated(size) == Saturated(TasksOf(defs, id) + ExpandedCalls(defs, s.rank, ts, s.next)))
  }

  // What a search that goes on leaves as it was; open is the visit still open, if any.
  ghost predicate Continues(s: Search, s': Search, open: Option<Node>) {
    && (open.Some? ==> open.value !in s.state && open.value in s'.state && s'.state[open.value] == OnChain)
    && (forall n :: n in s.state ==> n in s'.state && s'.state[n] == s.state[n])
    && (forall n :: n in s'.state && n !in s.state && open != Some(n) ==> s'.state[n] == Finished)
    && s.isCalled <= s'.isCalled && s.callers <= s'.callers && s.cycles <= s'.cycles && s.next <= s'.next
    && (s'.cycles == [] ==> forall n :: n in s.rank ==> n in s'.rank && s'.rank[n] == s.rank[n])
  }

  // Everything the loop over the calls of id keeps; s0 is the search when id was first met.
  ghost predicate Looping(defs: Defs, s0: Search, id: Node, ts: seq<Node>, size: nat, s: Search) {
    && Checked(defs, s) && Noted(defs, s) && PartWay(defs, id, ts, size, s)
    && Continues(s0, s, Some(id)) && AllLeadTo(CallsOf(defs), s, id)
    && s.state.Keys <= Ids(defs)
  }

  // ----- its steps -----

  lemma Opens(defs: Defs, s: Search, id: Node)
    requires id !in s.state && id in Ids(defs) && Checked(defs, s) && Noted(defs, s) && AllLeadTo(CallsOf(defs), s, id)
             && s.state.Keys <= Ids(defs)
    ensures Looping(defs, s, id, [], TasksOf(defs, id), s.(state := s.state[id := OnChain]))
  {
    hide CallsOf, Reaches, Ranked, TasksOf, HasCycle, HasEdge, Ids;
    ReachesSelf(CallsOf(defs), id);
  }

  // A call of id that leads to t is met.
  lemma Notes(defs: Defs, s0: Search, id: Node, ts: seq<Node>, size: nat, s: Search, t: Node)
    requires Looping(defs, s0, id, ts, size, s) && HasEdge(CallsOf(defs), id, t)
    ensures Looping(defs, s0, id, ts, size, s.(isCalled := s.isCalled + {t}, callers := s.callers + {id}))
  {
    hide CallsOf, Ranked, TasksOf, ExpandedCalls, Saturated, HasCycle, Ids, Expanded, Reaches;
  }

  // It leads back to a process still open: a cycle is reported.
  lemma Reports(defs: Defs, s0: Search, id: Node, ts: seq<Node>, size: nat, s: Search, t: Node, call: Node)
    requires Looping(defs, s0, id, ts, size, s) && t in s.state && s.state[t] == OnChain
             && HasEdge(CallsOf(defs), id, t)
    ensures Looping(defs, s0, id, ts, size, s.(cycles := s.cycles + [call]))
  {
    hide CallsOf, Ranked, TasksOf, ExpandedCalls, Saturated, Ids, Orderly, HasEdge, Reaches;
    assert OnCycle(CallsOf(defs), id);
  }

  lemma LeadsOn(defs: Defs, s0: Search, id: Node, ts: seq<Node>, size: nat, s: Search, t: Node)
    requires Looping(defs, s0, id, ts, size, s) && HasEdge(CallsOf(defs), id, t)
    ensures AllLeadTo(CallsOf(defs), s, t) && Checked(defs, s) && Noted(defs, s) && s.state.Keys <= Ids(defs)
    ensures s0.state.Keys <= s.state.Keys && id in s.state && id !in s0.state
  {
    hide HasEdge, Reaches, CallsOf, Checked, Noted, PartWay, Ids;
    forall m | m in s.state && s.state[m] == OnChain
      ensures Reaches(CallsOf(defs), m, t)
    {
      ReachesSnoc(CallsOf(defs), m, id, t);
    }
  }

  // The visit of a new process it leads to has ended.
  lemma Returns(defs: Defs, s0: Search, id: Node, ts: seq<Node>, size: nat, s: Search, s': Search)
    requires Looping(defs, s0, id, ts, size, s)
    requires Continues(s, s', None) && Checked(defs, s') && Noted(defs, s') && s'.state.Keys <= Ids(defs)
    ensures Looping(defs, s0, id, ts, size, s')
  {
    hide CallsOf, Ranked, TasksOf, HasCycle, Reaches, Saturated, Expanded, Noted, Ids, PartWay;
    PartStays(defs, id, ts, size, s, s');
  }

  lemma PartStays(defs: Defs, id: Node, ts: seq<Node>, size: nat, s: Search, s': Search)
    requires PartWay(defs, id, ts, size, s) && Continues(s, s', None) && Checked(defs, s')
    ensures PartWay(defs, id, ts, size, s')
  {
    hide CallsOf, Ranked, TasksOf, HasCycle, Saturated, Expanded;
    if s'.cycles == [] {
      ExpandedCallsAgree(defs, s.rank, s'.rank, ts, s.next, s'.next);
    }
  }

  // The size of the process it leads to is counted in.
  lemma Counts(defs: Defs, s0: Search, id: Node, ts: seq<Node>, size: nat, s: Search, t: Node)
    requires Looping(defs, s0, id, ts, size, s) && t in s.isCalled && id in s.callers
    requires t in s.state && (s.state[t] == Finished || s.cycles != [])
    ensures Looping(defs, s0, id, ts + [t], Capped(size + 1 + SizeOf(s.expanded, t)), s)
  {
    hide CallsOf, Ranked, TasksOf, Expanded, Saturated, Capped, Noted, AllLeadTo, Continues, Ids, HasCycle;
    if s.cycles == [] {
      assert (ts + [t])[..|ts|] == ts;
      Sum(size, TasksOf(defs, id) + ExpandedCalls(defs, s.rank, ts, s.next), SizeOf(s.expanded, t),
          Expanded(defs, s.rank, t));
    }
  }

  function WithFinished(s: Search, id: Node, size: nat): Search {
    s.(state := s.state[id := Finished], expanded := s.expanded[id := size], rank := s.rank[id := s.next],
       next := s.next + 1)
  }

  // All calls are dealt with: the process ranks above everything it calls.
  lemma Finishes(defs: Defs, s0: Search, p: Proc, size: nat, s: Search)
    requires FirstWith(defs, p.id) == Some(p) && Looping(defs, s0, p.id, TargetsOf(defs, p, p.calls), size, s)
    ensures Checked(defs, WithFinished(s, p.id, size)) && Noted(defs, WithFinished(s, p.id, size))
    ensures Continues(s0, WithFinished(s, p.id, size), None) && WithFinished(s, p.id, size).state.Keys <= Ids(defs)
  {
    hide CallsOf, HasCycle, TargetsOf, FirstWith, TasksOf, Reaches, Expanded, Saturated, Ranked, Ids;
    CallsOfProc(defs, p);
    if s.cycles == [] {
      SizesGrow(defs, p.id, size, s);
    }
  }

  lemma SizesGrow(defs: Defs, id: Node, size: nat, s: Search)
    requires Orderly(defs, s) && id !in s.rank && id in s.state
    requires PartWay(defs, id, Outs(CallsOf(defs), id), size, s) && s.cycles == []
    ensures Orderly(defs, WithFinished(s, id, size))
  {
    hide CallsOf, HasEdge, TasksOf, Ranked;
    var rank' := s.rank[id := s.next];
    RankedGrows(defs, id, s.rank, s.next);
    forall n | n in rank'
      ensures Saturated(s.expanded[id := size][n]) == Saturated(Expanded(defs, rank', n))
    {
      if n == id {
        ExpandedNew(defs, id, s.rank, s.next);
      } else {
        ExpandedAgrees(defs, s.rank, rank', n);
      }
    }
  }

  lemma RankedGrows(defs: Defs, id: Node, rank: map<Node, nat>, next: nat)
    requires Ranked(CallsOf(defs), rank) && id !in rank
    requires forall t :: t in Outs(CallsOf(defs), id) ==> t in rank && rank[t] < next
    ensures Ranked(CallsOf(defs), rank[id := next])
  {
    hide CallsOf;
  }

  lemma ExpandedNew(defs: Defs, id: Node, rank: map<Node, nat>, next: nat)
    requires Ranked(CallsOf(defs), rank) && id !in rank && Ranked(CallsOf(defs), rank[id := next])
    requires forall t :: t in Outs(CallsOf(defs), id) ==> t in rank && rank[t] < next
    ensures Expanded(defs, rank[id := next], id)
         == TasksOf(defs, id) + ExpandedCalls(defs, rank, Outs(CallsOf(defs), id), next)
  {
    hide CallsOf;
    ExpandedCallsAgree(defs, rank, rank[id := next], Outs(CallsOf(defs), id), next, next);
  }

  function Capped(size: nat): nat {
    if size < MAX_USER_TASKS + 1 then size else MAX_USER_TASKS + 1
  }

  // Adding saturated sizes saturates like adding the sizes themselves.
  lemma Sum(size: nat, total: nat, e: nat, more: nat)
    requires Saturated(size) == Saturated(total) && Saturated(e) == Saturated(more)
    ensures Saturated(Capped(size + 1 + e)) == Saturated(total + 1 + more)
  {
  }

  function SizeOf(expanded: map<Node, nat>, id: Node): nat {
    if id in expanded then expanded[id] else 0
  }

  lemma TargetIsCall(defs: Defs, p: Proc, i: nat)
    requires FirstWith(defs, p.id) == Some(p) && i < |p.calls|
    ensures TargetsOf(defs, p, p.calls[..i + 1])
         == (var t := CalledBy(defs, p, p.calls[i]);
             if t.None? then TargetsOf(defs, p, p.calls[..i]) else TargetsOf(defs, p, p.calls[..i]) + [t.value])
    ensures var t := CalledBy(defs, p, p.calls[i]);
            t.Some? ==>
              && HasEdge(CallsOf(defs), p.id, t.value) && t.value in Ids(defs)
              && FirstWith(defs, t.value).Some? && FirstWith(defs, t.value).value.id == t.value
  {
    hide CallsOf, FirstWith, CalledBy, Ids;
    assert p.calls[..i + 1][..i] == p.calls[..i];
    if CalledBy(defs, p, p.calls[i]).Some? {
      hide TargetsOf;
      CallIsEdge(defs, p, i);
    }
  }

  lemma CallIsEdge(defs: Defs, p: Proc, i: nat)
    requires FirstWith(defs, p.id) == Some(p) && i < |p.calls| && CalledBy(defs, p, p.calls[i]).Some?
    ensures var t := CalledBy(defs, p, p.calls[i]).value;
            HasEdge(CallsOf(defs), p.id, t) && FirstWith(defs, t).Some? && FirstWith(defs, t).value.id == t
                && t in Ids(defs)
  {
    hide CallsOf, TargetsOf, FirstWith, Ids;
    var t := CalledBy(defs, p, p.calls[i]).value;
    FirstHasId(defs, t);
    CallsOfProc(defs, p);
    LastTarget(defs, p, i);
    TargetsGrow(defs, p, p.calls, i + 1);
  }

  lemma LastTarget(defs: Defs, p: Proc, i: nat)
    requires i < |p.calls| && CalledBy(defs, p, p.calls[i]).Some?
    ensures CalledBy(defs, p, p.calls[i]).value in TargetsOf(defs, p, p.calls[..i + 1])
  {
    hide CalledBy;
    assert p.calls[..i + 1][i] == p.calls[i];
  }

  lemma {:induction false} TargetsGrow(defs: Defs, p: Proc, calls: seq<Call>, i: nat)
    requires i <= |calls|
    ensures TargetsOf(defs, p, calls[..i]) <= TargetsOf(defs, p, calls)
    decreases |calls|
  {
    if i < |calls| {
      TargetsGrow(defs, p, calls[..|calls|-1], i);
      assert calls[..|calls|-1][..i] == calls[..i];
    } else {
      assert calls[..i] == calls;
    }
  }

  lemma NoTargets(defs: Defs, p: Proc)
    ensures p.calls[..0] == [] && TargetsOf(defs, p, []) == [] && p.calls[..|p.calls|] == p.calls
  {
  }

  class CallGraphCheck {
    const defs: Defs
    var state: map<Node, Mark>
    var expanded: map<Node, nat>
    var isCalled: set<Node>
    var callers: set<Node>
    // The calls reported as closing a cycle.
    var cycles: seq<Node>
    ghost var rank: map<Node, nat>
    ghost var next: nat

    ghost function Snap(): Search
      reads this
    {
      Search(state, expanded, isCalled, callers, cycles, rank, next)
    }

    ghost predicate Valid()
      reads this
    {
      Checked(defs, Snap()) && Noted(defs, Snap()) && state.Keys <= Ids(defs)
    }

    constructor (defs: Defs)
      ensures this.defs == defs && Valid() && Snap() == FRESH_SEARCH
    {
      this.defs := defs;
      state, expanded, isCalled, callers, cycles := map[], map[], {}, {}, [];
      rank, next := map[], 0;
    }

    method Visit(p: Proc)
      requires Valid() && FirstWith(defs, p.id) == Some(p) && p.id !in state && AllLeadTo(CallsOf(defs), Snap(), p.id)
      modifies this
      ensures Valid() && p.id in state && Continues(old(Snap()), Snap(), None)
      decreases |Ids(defs) - state.Keys|, 1
    {
      hide Checked, Noted, AllLeadTo, CallsOf, HasEdge, TargetsOf, Continues, Ids, FirstWith, CalledBy, Looping;
      ghost var s0 := Snap();
      CallsOfProc(defs, p);
      Opens(defs, s0, p.id);
      state := state[p.id := OnChain];
      var size := p.userTasks;
      NoTargets(defs, p);
      for i := 0 to |p.calls|
        invariant Looping(defs, s0, p.id, TargetsOf(defs, p, p.calls[..i]), size, Snap())
      {
        size := Follow(p, i, size, s0);
      }
      Finishes(defs, s0, p, size, Snap());
      expanded := expanded[p.id := size];
      rank, next := rank[p.id := next], next + 1;
      state := state[p.id := Finished];
    }

    // One call of p: its target is visited if it is new, reported if it is still open, and its size added.
    method Follow(p: Proc, i: nat, size: nat, ghost s0: Search) returns (total: nat)
      requires FirstWith(defs, p.id) == Some(p) && i < |p.calls| && p.id in Ids(defs)
      requires Looping(defs, s0, p.id, TargetsOf(defs, p, p.calls[..i]), size, Snap())
      modifies this
      ensures Looping(defs, s0, p.id, TargetsOf(defs, p, p.calls[..i + 1]), total, Snap())
      decreases |Ids(defs) - s0.state.Keys|, 0
    {
      hide Checked, Noted, AllLeadTo, CallsOf, HasEdge, TargetsOf, Continues, Ids, FirstWith, CalledBy, Looping;
      var called := CalledBy(defs, p, p.calls[i]);
      TargetIsCall(defs, p, i);
      if called.None? {
        return size;
      }
      var t := called.value;
      ghost var ts := TargetsOf(defs, p, p.calls[..i]);
      Notes(defs, s0, p.id, ts, size, Snap(), t);
      isCalled, callers := isCalled + {t}, callers + {p.id};
      if t in state && state[t] == OnChain {
        Reports(defs, s0, p.id, ts, size, Snap(), t, p.calls[i].id);
        cycles := cycles + [p.calls[i].id];
      } else if t !in state {
        ghost var s := Snap();
        LeadsOn(defs, s0, p.id, ts, size, s, t);
        FewerLeft(Ids(defs), s0.state.Keys, state.Keys, p.id);
        Visit(FirstWith(defs, t).value);
        KeepsNotes(s, Snap(), t);
        Returns(defs, s0, p.id, ts, size, s, Snap());
      }
      Counts(defs, s0, p.id, ts, size, Snap(), t);
      total := Capped(size + 1 + SizeOf(expanded, t));
    }
  }

  lemma KeepsNotes(s: Search, s': Search, t: Node)
    requires Continues(s, s', None) && t !in s.state && t in s'.state
    ensures s'.state[t] == Finished && s.isCalled <= s'.isCalled && s.callers <= s'.callers
  {
  }

  // ----- the verdict -----

  ghost predicate IsTarget(defs: Defs, n: Node) {
    exists m :: HasEdge(CallsOf(defs), m, n)
  }

  // A process that calls, that nothing calls, and whose expansion is over the limit of 1000 tasks.
  ghost predicate Oversized(defs: Defs, rank: map<Node, nat>, id: Node)
    requires Ranked(CallsOf(defs), rank) && id in rank
  {
    !IsTarget(defs, id) && Outs(CallsOf(defs), id) != [] && Expanded(defs, rank, id) > 1000
  }

  ghost predicate AllFinished(s: Search) {
    forall n :: n in s.state ==> s.state[n] == Finished
  }

  /**
   * A call cycle is reported exactly when there is one; and when there is none,
   * the processes flagged are exactly the uncalled callers whose full expansion is over the limit.
   */
  method ValidateCallGraph(defs: Defs) returns (cycles: seq<Node>, oversized: seq<Node>, ghost rank: map<Node, nat>)
    ensures cycles != [] <==> HasCycle(CallsOf(defs))
    ensures cycles == [] ==>
              && Ranked(CallsOf(defs), rank) && rank.Keys == Ids(defs)
              && forall id :: id in oversized <==> id in Ids(defs) && Oversized(defs, rank, id)
  {
    hide Checked, Noted, AllLeadTo, CallsOf, Continues, FirstWith, HasCycle, Ranked, Oversized;
    var check := new CallGraphCheck(defs);
    for i := 0 to |defs|
      invariant check.Valid() && AllFinished(check.Snap())
      invariant forall j :: 0 <= j < i ==> defs[j].id in check.state
    {
      if defs[i].id !in check.state {
        FirstHasId(defs, defs[i].id);
        ghost var s := check.Snap();
        NoneOpenLead(defs, s, defs[i].id);
        check.Visit(FirstWith(defs, defs[i].id).value);
        StillFinished(s, check.Snap());
      }
    }
    ghost var s := check.Snap();
    var expanded, isCalled, callers := check.expanded, check.isCalled, check.callers;
    cycles, rank := check.cycles, check.rank;
    Verdict(defs, s);
    oversized := [];
    for i := 0 to |defs|
      invariant cycles == [] ==> forall id :: id in oversized <==>
                (exists j :: 0 <= j < i && defs[j].id == id) && Oversized(defs, rank, id)
    {
      var id := defs[i].id;
      if id !in isCalled && SizeOf(expanded, id) > MAX_USER_TASKS && id in callers {
        oversized := oversized + [id];
      }
      if cycles == [] {
        Judge(defs, s, id);
      }
    }
  }

  lemma EdgesFromIds(defs: Defs, m: Node, n: Node)
    requires HasEdge(CallsOf(defs), m, n)
    ensures m in Ids(defs)
  {
  }

  lemma Verdict(defs: Defs, s: Search)
    requires Checked(defs, s) && AllFinished(s) && s.state.Keys == Ids(defs)
    ensures s.cycles != [] <==> HasCycle(CallsOf(defs))
    ensures s.cycles == [] ==> Ranked(CallsOf(defs), s.rank) && s.rank.Keys == Ids(defs)
  {
    hide CallsOf, Ranked, Expanded, Saturated, Ids, HasEdge, Reaches;
    if s.cycles == [] && HasCycle(CallsOf(defs)) {
      var n :| OnCycle(CallsOf(defs), n);
      var m :| HasEdge(CallsOf(defs), n, m) && Reaches(CallsOf(defs), m, n);
      EdgesFromIds(defs, n, m);
      ReachesSelf(CallsOf(defs), n);
      RankedAcyclic(CallsOf(defs), s.rank, n);
    }
  }

  lemma Judge(defs: Defs, s: Search, id: Node)
    requires Checked(defs, s) && Noted(defs, s) && s.cycles == []
    requires AllFinished(s) && s.state.Keys == Ids(defs) && id in Ids(defs)
    ensures Ranked(CallsOf(defs), s.rank) && id in s.rank
    ensures id !in s.isCalled && SizeOf(s.expanded, id) > MAX_USER_TASKS && id in s.callers <==>
            Oversized(defs, s.rank, id)
  {
    hide CallsOf, Ranked, Expanded, Ids, HasEdge;
    if m :| HasEdge(CallsOf(defs), m, id) {
      EdgesFromIds(defs, m, id);
    }
    if Outs(CallsOf(defs), id) != [] {
      OutIsEdge(defs, id);
    }
  }

  lemma OutIsEdge(defs: Defs, id: Node)
    requires Outs(CallsOf(defs), id) != []
    ensures HasEdge(CallsOf(defs), id, Outs(CallsOf(defs), id)[0])
  {
  }

  lemma NoneOpenLead(defs: Defs, s: Search, id: Node)
    requires AllFinished(s)
    ensures AllLeadTo(CallsOf(defs), s, id)
  {
    hide CallsOf;
  }

  lemma StillFinished(s: Search, s': Search)
    requires AllFinished(s) && Continues(s, s', None)
    ensures AllFinished(s') && forall n :: n in s.state ==> n in s'.state
  {
  }
}

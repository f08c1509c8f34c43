/**
 * Strongly connected components as graph_algorithms.go computes them: one
 * depth-first pass with indices, lowlinks and a stack. What is proved is that
 * two nodes share a component exactly when each reaches the other.
 */
module Tarjan {
  import opened Graphs
  import opened Sets

  // ----- components -----

  ghost predicate IsComponent(G: Succ, c: set<Node>) {
    && (forall a, b :: a in c && b in c ==> Reaches(G, a, b))
    && (forall a, b :: a in c && Reaches(G, a, b) && Reaches(G, b, a) ==> b in c)
  }

  function Elems(s: seq<Node>): set<Node> {
    set n | n in s
  }

  ghost predicate NoRepeat(s: seq<Node>) {
    forall i, j :: 0 <= i < j < |s| ==> s[i] != s[j]
  }

  function Members(sccs: seq<seq<Node>>): set<Node> {
    if sccs == [] then {} else Members(sccs[..|sccs|-1]) + Elems(sccs[|sccs|-1])
  }

  /** Components one after the other, none empty, no node twice. */
  ghost predicate Components(G: Succ, sccs: seq<seq<Node>>) {
    sccs == [] ||
    (var init, last := sccs[..|sccs|-1], sccs[|sccs|-1];
     Components(G, init) && last != [] && NoRepeat(last) && IsComponent(G, Elems(last)) && Elems(last) !! Members(init))
  }

  ghost predicate Together(sccs: seq<seq<Node>>, a: Node, b: Node) {
    exists i :: 0 <= i < |sccs| && a in sccs[i] && b in sccs[i]
  }

  // ----- what the pass knows at any moment -----

  // A node on the stack leads back to one whose call is still open.
  ghost predicate LeadsBack(G: Succ, idx: map<Node, nat>, gray: set<Node>, y: Node)
    requires y in idx
  {
    exists x :: x in gray && x in idx && idx[x] <= idx[y] && Reaches(G, y, x)
  }

  // Calls that ended saw all their targets.
  ghost predicate NoWhite(G: Succ, idx: map<Node, nat>, gray: set<Node>) {
    forall u, v {:trigger HasEdge(G, u, v)} :: u in idx && u !in gray && HasEdge(G, u, v) ==> v in idx
  }

  // Nodes taken off the stack lead only to nodes taken off the stack.
  ghost predicate DoneClosed(G: Succ, idx: map<Node, nat>, S: set<Node>) {
    forall u, v {:trigger HasEdge(G, u, v)} :: u in idx && u !in S && HasEdge(G, u, v) ==> v in idx && v !in S
  }

  // A node on the stack reaches those above it.
  ghost predicate ReachesUp(G: Succ, idx: map<Node, nat>, S: set<Node>)
    requires S <= idx.Keys
  {
    forall x, y {:trigger Reaches(G, x, y)} :: x in S && y in S && idx[x] <= idx[y] ==> Reaches(G, x, y)
  }

  ghost predicate AllLeadBack(G: Succ, idx: map<Node, nat>, S: set<Node>, gray: set<Node>)
    requires S <= idx.Keys
  {
    forall y :: y in S ==> LeadsBack(G, idx, gray, y)
  }

  ghost predicate Env(G: Succ, idx: map<Node, nat>, S: set<Node>, gray: set<Node>) {
    && gray <= S && S <= idx.Keys
    && NoWhite(G, idx, gray) && DoneClosed(G, idx, S) && ReachesUp(G, idx, S) && AllLeadBack(G, idx, S, gray)
  }

  // What was numbered below n0 stays; what is new is numbered from n0 and reached from v.
  ghost predicate Grows(G: Succ, idx: map<Node, nat>, S: set<Node>, idx': map<Node, nat>, S': set<Node>, n0: nat,
                        v: Node) {
    && idx.Keys <= idx'.Keys && S <= S' && S' <= idx'.Keys
    && (forall n :: n in idx ==> idx[n] < n0 && idx'[n] == idx[n] && (n in S' <==> n in S))
    && (forall n :: n in idx' && n !in idx ==> n0 <= idx'[n] && Reaches(G, v, n))
  }

  // The lowlink is the index of a node on the stack that v reaches.
  ghost predicate LowReached(G: Succ, idx: map<Node, nat>, S: set<Node>, v: Node, low: nat) {
    exists y :: y in S && y in idx && idx[y] == low && Reaches(G, v, y)
  }

  // No flow from a new node on the stack, v only by its flows in seen, leads below the lowlink.
  ghost predicate LowBounds(G: Succ, idx: map<Node, nat>, S: set<Node>, S': set<Node>, low: nat, v: Node,
                            seen: seq<Node>)
    requires S <= idx.Keys
  {
    forall x, y {:trigger HasEdge(G, x, y)} ::
      x in S' && x !in S && y in S && HasEdge(G, x, y) && (x == v ==> y in seen) ==> low <= idx[y]
  }

  // The call for v, part of the way through its flows.
  ghost predicate During(G: Succ, idx: map<Node, nat>, S: set<Node>, gray: set<Node>, v: Node, n0: nat,
                         idx': map<Node, nat>, S': set<Node>, low: nat, seen: seq<Node>)
  {
    && S <= idx.Keys && v !in idx
    && Env(G, idx', S', gray + {v})
    && Grows(G, idx, S, idx', S', n0, v)
    && v in S' && v in idx' && idx'[v] == n0
    && low <= n0 && LowReached(G, idx', S', v, low)
    && LowBounds(G, idx, S, S', low, v, seen)
    && forall w :: w in seen ==> w in idx'
  }

  // The call for v ended: it kept v on the stack for a lower node, or took it off.
  ghost predicate Ended(G: Succ, idx: map<Node, nat>, S: set<Node>, gray: set<Node>, v: Node, n0: nat,
                        idx': map<Node, nat>, S': set<Node>, low: nat)
  {
    && S <= idx.Keys && v !in idx
    && Env(G, idx', S', gray)
    && Grows(G, idx, S, idx', S', n0, v)
    && v in idx' && idx'[v] == n0 && low <= n0
    && (v in S' ==> LowReached(G, idx', S', v, low))
    && (v !in S' ==> low == n0)
    && LowBounds(G, idx, S, S', low, v, Outs(G, v))
  }

  // ----- the steps -----

  ghost predicate AllReach(G: Succ, gray: set<Node>, v: Node) {
    forall g :: g in gray ==> Reaches(G, g, v)
  }

  lemma LeadsBackTo(G: Succ, idx: map<Node, nat>, gray: set<Node>, y: Node) returns (x: Node)
    requires y in idx && LeadsBack(G, idx, gray, y)
    ensures x in gray && x in idx && idx[x] <= idx[y] && Reaches(G, y, x)
  {
    x :| x in gray && x in idx && idx[x] <= idx[y] && Reaches(G, y, x);
  }

  function Min(a: nat, b: nat): nat {
    if a < b then a else b
  }

  lemma StackReaches(G: Succ, idx: map<Node, nat>, S: set<Node>, gray: set<Node>, x: Node, v: Node)
    requires Env(G, idx, S, gray) && AllReach(G, gray, v) && x in S
    ensures Reaches(G, x, v)
  {
    hide Reaches, NoWhite, DoneClosed, ReachesUp, LeadsBack;
    var g := LeadsBackTo(G, idx, gray, x);
    ReachesTrans(G, x, g, v);
  }

  lemma LeadsBackGrows(G: Succ, idx: map<Node, nat>, S: set<Node>, gray: set<Node>, idx': map<Node, nat>,
                       gray': set<Node>, y: Node)
    requires S <= idx.Keys && y in S && AllLeadBack(G, idx, S, gray) && gray <= gray' && idx.Keys <= idx'.Keys
    requires forall n :: n in idx ==> idx'[n] == idx[n]
    ensures LeadsBack(G, idx', gray', y)
  {
    hide Reaches;
    assert LeadsBack(G, idx, gray, y);
  }

  // A call opens.
  lemma Opens(G: Succ, idx: map<Node, nat>, S: set<Node>, gray: set<Node>, v: Node, n0: nat)
    requires Env(G, idx, S, gray) && AllReach(G, gray, v) && v !in idx && forall n :: n in idx ==> idx[n] < n0
    ensures During(G, idx, S, gray, v, n0, idx[v := n0], S + {v}, n0, [])
  {
    hide Reaches, LeadsBack, AllReach, HasEdge;
    var idx', S' := idx[v := n0], S + {v};
    ReachesSelf(G, v);
    forall x | x in S
      ensures Reaches(G, x, v)
    {
      StackReaches(G, idx, S, gray, x, v);
    }
    assert LeadsBack(G, idx', gray + {v}, v) by { LeadsToSelf(G, idx', gray + {v}, v); }
    forall y | y in S
      ensures LeadsBack(G, idx', gray + {v}, y)
    {
      LeadsBackGrows(G, idx, S, gray, idx', gray + {v}, y);
    }
  }

  lemma LeadsToSelf(G: Succ, idx: map<Node, nat>, gray: set<Node>, v: Node)
    requires v in idx && v in gray
    ensures LeadsBack(G, idx, gray, v)
  {
    ReachesSelf(G, v);
  }

  // The next flow leads to a node still on the stack, or taken off it.
  lemma Sees(G: Succ, idx: map<Node, nat>, S: set<Node>, gray: set<Node>, v: Node, n0: nat,
             idx': map<Node, nat>, S': set<Node>, low: nat, seen: seq<Node>, w: Node)
    requires During(G, idx, S, gray, v, n0, idx', S', low, seen) && w in idx' && HasEdge(G, v, w)
    requires S' <= idx'.Keys
    ensures var low' := if w in S' && idx'[w] < low then idx'[w] else low;
            During(G, idx, S, gray, v, n0, idx', S', low', seen + [w])
  {
    hide Reaches, Env, HasEdge;
    ReachesEdge(G, v, w);
  }

  // The next flow leads to a new node, whose call has ended.
  lemma Returns(G: Succ, idx: map<Node, nat>, S: set<Node>, gray: set<Node>, v: Node, n0: nat,
                idx1: map<Node, nat>, S1: set<Node>, low: nat, seen: seq<Node>, w: Node, n1: nat,
                idx2: map<Node, nat>, S2: set<Node>, lowW: nat)
    requires During(G, idx, S, gray, v, n0, idx1, S1, low, seen) && HasEdge(G, v, w) && n0 < n1
    requires Ended(G, idx1, S1, gray + {v}, w, n1, idx2, S2, lowW)
    ensures During(G, idx, S, gray, v, n0, idx2, S2, Min(lowW, low), seen + [w])
  {
    hide Reaches, Env, HasEdge;
    GrowsOn(G, idx, S, v, n0, idx1, S1, w, n1, idx2, S2);
    LowStays(G, v, idx1, S1, low, w, n1, idx2, S2, lowW);
    BoundsGrow(G, idx, S, v, n0, idx1, S1, low, seen, w, n1, idx2, S2, lowW);
  }

  lemma GrowsOn(G: Succ, idx: map<Node, nat>, S: set<Node>, v: Node, n0: nat, idx1: map<Node, nat>, S1: set<Node>,
                w: Node, n1: nat, idx2: map<Node, nat>, S2: set<Node>)
    requires Grows(G, idx, S, idx1, S1, n0, v) && Grows(G, idx1, S1, idx2, S2, n1, w) && HasEdge(G, v, w) && n0 < n1
    ensures Grows(G, idx, S, idx2, S2, n0, v)
  {
    hide Reaches, HasEdge;
    forall n | n in idx2 && n !in idx
      ensures n0 <= idx2[n] && Reaches(G, v, n)
    {
      if n !in idx1 {
        ReachesStep(G, v, w, n);
      }
    }
  }

  lemma LowStays(G: Succ, v: Node, idx1: map<Node, nat>, S1: set<Node>, low: nat,
                 w: Node, n1: nat, idx2: map<Node, nat>, S2: set<Node>, lowW: nat)
    requires LowReached(G, idx1, S1, v, low) && Grows(G, idx1, S1, idx2, S2, n1, w) && HasEdge(G, v, w)
    requires (w in S2 ==> LowReached(G, idx2, S2, w, lowW)) && (w !in S2 ==> lowW == n1) && low < n1
    ensures LowReached(G, idx2, S2, v, Min(lowW, low))
  {
    hide Reaches, HasEdge;
    if lowW < low {
      var y :| y in S2 && y in idx2 && idx2[y] == lowW && Reaches(G, w, y);
      ReachesStep(G, v, w, y);
    } else {
      var y :| y in S1 && y in idx1 && idx1[y] == low && Reaches(G, v, y);
      assert y in S2 && idx2[y] == low;
    }
  }

  lemma BoundsGrow(G: Succ, idx: map<Node, nat>, S: set<Node>, v: Node, n0: nat, idx1: map<Node, nat>, S1: set<Node>,
                   low: nat, seen: seq<Node>,
                   w: Node, n1: nat, idx2: map<Node, nat>, S2: set<Node>, lowW: nat)
    requires S <= idx.Keys && S1 <= idx1.Keys && v in S1 && v in idx1
    requires LowBounds(G, idx, S, S1, low, v, seen) && LowBounds(G, idx1, S1, S2, lowW, w, Outs(G, w))
    requires Grows(G, idx, S, idx1, S1, n0, v) && Grows(G, idx1, S1, idx2, S2, n1, w) && w !in idx1
    ensures LowBounds(G, idx, S, S2, Min(lowW, low), v, seen + [w])
  {
    hide Reaches;
    var low' := Min(lowW, low);
    forall x, y {:trigger HasEdge(G, x, y)} | x in S2 && x !in S && y in S && HasEdge(G, x, y)
        && (x == v ==> y in seen + [w])
      ensures low' <= idx[y]
    {
      assert y in S1 && idx1[y] == idx[y] && y != w;
      if x in S1 {
        assert x == v ==> y in seen;
      }
    }
  }

  // Every flow of v is seen and a lower node is reached: v stays for it.
  lemma Stays(G: Succ, idx: map<Node, nat>, S: set<Node>, gray: set<Node>, v: Node, n0: nat,
              idx': map<Node, nat>, S': set<Node>, low: nat)
    requires Env(G, idx, S, gray) && During(G, idx, S, gray, v, n0, idx', S', low, Outs(G, v)) && low < n0
    ensures Ended(G, idx, S, gray, v, n0, idx', S', low)
  {
    hide Reaches, LeadsBack;
    assert LeadsBack(G, idx', gray, v) by { LowLeadsBack(G, idx, S, gray, v, n0, idx', S', low); }
    forall y | y in S'
      ensures LeadsBack(G, idx', gray, y)
    {
      LeadsPast(G, idx', gray, v, y);
    }
    assert forall w :: HasEdge(G, v, w) ==> w in idx';
  }

  lemma LowLeadsBack(G: Succ, idx: map<Node, nat>, S: set<Node>, gray: set<Node>, v: Node, n0: nat,
                     idx': map<Node, nat>, S': set<Node>, low: nat)
    requires Env(G, idx, S, gray) && During(G, idx, S, gray, v, n0, idx', S', low, Outs(G, v)) && low < n0
    ensures LeadsBack(G, idx', gray, v)
  {
    hide Reaches, HasEdge, NoWhite, DoneClosed, ReachesUp, LeadsBack;
    var y :| y in S' && y in idx' && idx'[y] == low && Reaches(G, v, y);
    assert y in S;
    var x := LeadsBackTo(G, idx, gray, y);
    ReachesTrans(G, v, y, x);
    LeadsTo(G, idx', gray, v, x);
  }

  lemma LeadsTo(G: Succ, idx: map<Node, nat>, gray: set<Node>, y: Node, x: Node)
    requires y in idx && x in gray && x in idx && idx[x] <= idx[y] && Reaches(G, y, x)
    ensures LeadsBack(G, idx, gray, y)
  {
  }

  // Whoever leads back to v leads back past it.
  lemma LeadsPast(G: Succ, idx: map<Node, nat>, gray: set<Node>, v: Node, y: Node)
    requires v in idx && y in idx && LeadsBack(G, idx, gray + {v}, y) && LeadsBack(G, idx, gray, v)
    ensures LeadsBack(G, idx, gray, y)
  {
    hide Reaches, LeadsBack;
    var x := LeadsBackTo(G, idx, gray + {v}, y);
    if x !in gray {
      var z := LeadsBackTo(G, idx, gray, v);
      ReachesTrans(G, y, v, z);
      LeadsTo(G, idx, gray, y, z);
    } else {
      LeadsTo(G, idx, gray, y, x);
    }
  }

  // ----- taking a component off the stack -----

  // The flows of what is above v, v included, lead nowhere below it.
  lemma NothingBelow(G: Succ, idx: map<Node, nat>, S: set<Node>, gray: set<Node>, v: Node, n0: nat,
                     idx': map<Node, nat>, S': set<Node>)
    requires gray <= S && During(G, idx, S, gray, v, n0, idx', S', n0, Outs(G, v))
    ensures forall x, y {:trigger HasEdge(G, x, y)} :: x in S' && x !in S && HasEdge(G, x, y) ==> y in idx' && y !in S
    ensures Closed(G, idx'.Keys - S' + (S' - S))
  {
    hide Reaches, ReachesUp, AllLeadBack, LowReached;
    forall x, y {:trigger HasEdge(G, x, y)} | x in S' && x !in S && HasEdge(G, x, y)
      ensures y in idx' && y !in S
    {
      if x == v {
        assert y in Outs(G, v);
      }
    }
  }

  lemma TopReachesV(G: Succ, idx: map<Node, nat>, S: set<Node>, gray: set<Node>, v: Node, n0: nat,
                    idx': map<Node, nat>, S': set<Node>, y: Node)
    requires gray <= S && During(G, idx, S, gray, v, n0, idx', S', n0, Outs(G, v)) && y in S' - S
    ensures Reaches(G, y, v) && Reaches(G, v, y)
  {
    hide Reaches, NoWhite, DoneClosed, LowBounds, LowReached, LeadsBack;
    var x := LeadsBackTo(G, idx', gray + {v}, y);
    assert y !in idx && idx'[v] <= idx'[y];
    if x != v {
      NothingBelow(G, idx, S, gray, v, n0, idx', S');
      ClosedReaches(G, idx'.Keys - S' + (S' - S), y, x);
      assert false;
    }
  }

  /** What lies on the stack from v up, when no lower node is reached, is one whole component. */
  lemma TopIsComponent(G: Succ, idx: map<Node, nat>, S: set<Node>, gray: set<Node>, v: Node, n0: nat,
                       idx': map<Node, nat>, S': set<Node>)
    requires gray <= S && During(G, idx, S, gray, v, n0, idx', S', n0, Outs(G, v))
    ensures IsComponent(G, S' - S)
  {
    hide Reaches, NoWhite, ReachesUp, AllLeadBack, LowBounds, LowReached;
    forall a, b | a in S' - S && b in S' - S
      ensures Reaches(G, a, b)
    {
      TopReachesV(G, idx, S, gray, v, n0, idx', S', a);
      TopReachesV(G, idx, S, gray, v, n0, idx', S', b);
      ReachesTrans(G, a, v, b);
    }
    forall a, b | a in S' - S && Reaches(G, a, b) && Reaches(G, b, a)
      ensures b in S' - S
    {
      NothingBelow(G, idx, S, gray, v, n0, idx', S');
      ClosedReaches(G, idx'.Keys - S' + (S' - S), a, b);
      if b !in S' {
        assert Closed(G, idx'.Keys - S');
        ClosedReaches(G, idx'.Keys - S', b, a);
        assert false;
      }
    }
  }

  lemma TakesOff(G: Succ, idx: map<Node, nat>, S: set<Node>, gray: set<Node>, v: Node, n0: nat,
                 idx': map<Node, nat>, S': set<Node>)
    requires Env(G, idx, S, gray) && During(G, idx, S, gray, v, n0, idx', S', n0, Outs(G, v))
    ensures Ended(G, idx, S, gray, v, n0, idx', S, n0)
  {
    hide Reaches, LeadsBack;
    NothingBelow(G, idx, S, gray, v, n0, idx', S');
    hide HasEdge;
    forall y | y in S
      ensures LeadsBack(G, idx', gray, y)
    {
      LeadsBackGrows(G, idx, S, gray, idx', gray, y);
    }
  }

  // ----- components, once listed -----

  lemma {:induction false} InMembers(sccs: seq<seq<Node>>, n: Node) returns (i: nat)
    requires n in Members(sccs)
    ensures i < |sccs| && n in sccs[i]
  {
    if n in sccs[|sccs|-1] {
      i := |sccs| - 1;
    } else {
      i := InMembers(sccs[..|sccs|-1], n);
    }
  }

  lemma {:induction false} ListedMembers(sccs: seq<seq<Node>>, i: nat, n: Node)
    requires i < |sccs| && n in sccs[i]
    ensures n in Members(sccs)
  {
    if i < |sccs| - 1 {
      ListedMembers(sccs[..|sccs|-1], i, n);
    }
  }

  lemma {:induction false} EachComponent(G: Succ, sccs: seq<seq<Node>>, i: nat)
    requires Components(G, sccs) && i < |sccs|
    ensures IsComponent(G, Elems(sccs[i])) && sccs[i] != [] && NoRepeat(sccs[i])
    ensures forall j :: 0 <= j < |sccs| && j != i ==> Elems(sccs[i]) !! Elems(sccs[j])
  {
    hide IsComponent, NoRepeat;
    var last := |sccs| - 1;
    forall j | 0 <= j < |sccs| && j != i
      ensures Elems(sccs[i]) !! Elems(sccs[j])
    {
      if i < last && j < last {
        EachComponent(G, sccs[..last], i);
        assert sccs[..last][j] == sccs[j];
      } else {
        var low := if i < last then i else j;
        forall n | n in sccs[low]
          ensures n !in sccs[last]
        {
          ListedMembers(sccs[..last], low, n);
        }
      }
    }
    if i < last {
      EachComponent(G, sccs[..last], i);
    }
  }

  /** Two nodes share a component exactly when each reaches the other, and no node is in two. */
  lemma TogetherIffMutual(G: Succ, sccs: seq<seq<Node>>, a: Node, b: Node)
    requires Components(G, sccs) && a in Members(sccs)
    ensures Together(sccs, a, b) <==> Reaches(G, a, b) && Reaches(G, b, a)
    ensures forall i, j :: 0 <= i < |sccs| && 0 <= j < |sccs| && a in sccs[i] && a in sccs[j] ==> i == j
  {
    hide Reaches, Components;
    var i := InMembers(sccs, a);
    EachComponent(G, sccs, i);
    if Reaches(G, a, b) && Reaches(G, b, a) {
      assert b in Elems(sccs[i]);
    }
    if Together(sccs, a, b) {
      var k :| 0 <= k < |sccs| && a in sccs[k] && b in sccs[k];
      assert a in Elems(sccs[i]) && a in Elems(sccs[k]);
      assert b in Elems(sccs[i]);
    }
    forall k | 0 <= k < |sccs| && a in sccs[k]
      ensures k == i
    {
      assert a in Elems(sccs[i]) && a in Elems(sccs[k]);
    }
  }

  // ----- the runner -----

  datatype SccState = SccState(index: nat, lowlink: nat, onStack: bool)

  function IndexOf(states: map<Node, SccState>): map<Node, nat> {
    map n | n in states :: states[n].index
  }

  function OnStack(states: map<Node, SccState>): set<Node> {
    set n | n in states && states[n].onStack
  }

  // The stack holds nodes in the order of their indices.
  ghost predicate Stacked(stack: seq<Node>, idx: map<Node, nat>, nextIdx: nat) {
    && (forall n :: n in idx ==> idx[n] < nextIdx)
    && (forall i :: 0 <= i < |stack| ==> stack[i] in idx)
    && (forall i, j :: 0 <= i < j < |stack| ==> idx[stack[i]] < idx[stack[j]])
  }

  ghost predicate Listed(G: Succ, states: map<Node, SccState>, stack: seq<Node>, sccs: seq<seq<Node>>, nextIdx: nat) {
    && Stacked(stack, IndexOf(states), nextIdx)
    && Elems(stack) == OnStack(states)
    && Components(G, sccs) && Members(sccs) == states.Keys - OnStack(states)
  }

  // The states of the nodes met so far stay as they are.
  ghost predicate Untouched(states: map<Node, SccState>, states': map<Node, SccState>) {
    forall n :: n in states ==> n in states' && states'[n] == states[n]
  }

  lemma UntouchedKeys(a: map<Node, SccState>, b: map<Node, SccState>)
    requires Untouched(a, b)
    ensures a.Keys <= b.Keys && forall n :: n in a ==> b[n] == a[n]
  {
  }

  lemma UntouchedTrans(a: map<Node, SccState>, b: map<Node, SccState>, c: map<Node, SccState>)
    requires Untouched(a, b) && Untouched(b, c)
    ensures Untouched(a, c)
  {
  }

  lemma UntouchedSet(a: map<Node, SccState>, b: map<Node, SccState>, v: Node, s: SccState)
    requires v !in a && (Untouched(a, b) || a == b)
    ensures Untouched(a, b[v := s])
  {
  }

  lemma FlowTo(G: Succ, v: Node, i: nat)
    requires i < |Outs(G, v)|
    ensures HasEdge(G, v, Outs(G, v)[i])
  {
  }

  lemma PushListed(G: Succ, states: map<Node, SccState>, stack: seq<Node>, sccs: seq<seq<Node>>, n0: nat, v: Node)
    requires Listed(G, states, stack, sccs, n0) && v !in states
    ensures var states' := states[v := SccState(n0, n0, true)];
            && Listed(G, states', stack + [v], sccs, n0 + 1)
            && IndexOf(states') == IndexOf(states)[v := n0] && OnStack(states') == OnStack(states) + {v}
  {
    hide Components, Members;
    var states' := states[v := SccState(n0, n0, true)];
    assert IndexOf(states') == IndexOf(states)[v := n0];
    assert OnStack(states') == OnStack(states) + {v};
    assert Elems(stack + [v]) == Elems(stack) + {v};
  }

  // Lowering a lowlink changes no index and no flag.
  lemma LowerListed(states: map<Node, SccState>, v: Node, low: nat)
    requires v in states
    ensures var states' := states[v := states[v].(lowlink := low)];
            IndexOf(states') == IndexOf(states) && OnStack(states') == OnStack(states) && states'.Keys == states.Keys
  {
  }

  function TakenOff(states: map<Node, SccState>, off: set<Node>): map<Node, SccState> {
    map n | n in states :: if n in off then states[n].(onStack := false) else states[n]
  }

  lemma TakeOne(states: map<Node, SccState>, off: set<Node>, w: Node)
    requires w in states
    ensures w in TakenOff(states, off)
    ensures TakenOff(states, off)[w := TakenOff(states, off)[w].(onStack := false)] == TakenOff(states, off + {w})
  {
  }

  lemma PopListed(G: Succ, states: map<Node, SccState>, stack: seq<Node>, sccs: seq<seq<Node>>, nextIdx: nat,
                  base: nat, scc: seq<Node>)
    requires Listed(G, states, stack, sccs, nextIdx) && base < |stack|
    requires Elems(scc) == Elems(stack[base..]) && scc != [] && NoRepeat(scc) && IsComponent(G, Elems(stack[base..]))
    ensures var states' := TakenOff(states, Elems(scc));
            && Listed(G, states', stack[..base], sccs + [scc], nextIdx)
            && IndexOf(states') == IndexOf(states) && OnStack(states') == Elems(stack[..base])
            && OnStack(states) - Elems(stack[..base]) == Elems(scc)
  {
    hide IsComponent, NoRepeat, Components, Members;
    var states' := TakenOff(states, Elems(scc));
    assert IndexOf(states') == IndexOf(states);
    StackHalves(stack, IndexOf(states), nextIdx, base);
    assert OnStack(states') == Elems(stack[..base]);
    OneMore(G, sccs, scc, states.Keys - OnStack(states));
  }

  lemma StackHalves(stack: seq<Node>, index: map<Node, nat>, nextIdx: nat, base: nat)
    requires Stacked(stack, index, nextIdx) && base <= |stack|
    ensures Stacked(stack[..base], index, nextIdx)
    ensures Elems(stack) == Elems(stack[..base]) + Elems(stack[base..]) && Elems(stack[..base]) !! Elems(stack[base..])
  {
    assert stack == stack[..base] + stack[base..];
  }

  lemma OneMore(G: Succ, sccs: seq<seq<Node>>, scc: seq<Node>, members: set<Node>)
    requires Components(G, sccs) && Members(sccs) == members && Elems(scc) !! members
    requires scc != [] && NoRepeat(scc) && IsComponent(G, Elems(scc))
    ensures Components(G, sccs + [scc]) && Members(sccs + [scc]) == members + Elems(scc)
  {
    hide IsComponent, NoRepeat;
    assert (sccs + [scc])[..|sccs|] == sccs;
  }

  lemma IndexBelow(G: Succ, states: map<Node, SccState>, stack: seq<Node>, sccs: seq<seq<Node>>, nextIdx: nat)
    requires Listed(G, states, stack, sccs, nextIdx)
    ensures IndexOf(states).Keys == states.Keys && Elems(stack) == OnStack(states)
    ensures forall n :: n in IndexOf(states) ==> IndexOf(states)[n] < nextIdx
  {
    hide Components;
  }

  lemma DuringEnv(G: Succ, idx: map<Node, nat>, S: set<Node>, gray: set<Node>, v: Node, n0: nat,
                  idx': map<Node, nat>, S': set<Node>, low: nat, seen: seq<Node>)
    requires During(G, idx, S, gray, v, n0, idx', S', low, seen)
    ensures Env(G, idx', S', gray + {v}) && S' <= idx'.Keys && low <= n0
  {
    hide Env, LowReached, LowBounds;
  }

  lemma EndedEnv(G: Succ, idx: map<Node, nat>, S: set<Node>, gray: set<Node>, v: Node, n0: nat,
                 idx': map<Node, nat>, S': set<Node>, low: nat)
    requires Ended(G, idx, S, gray, v, n0, idx', S', low)
    ensures Env(G, idx', S', gray)
  {
    hide Env, LowReached, LowBounds;
  }

  lemma NextReached(G: Succ, gray: set<Node>, v: Node, w: Node)
    requires AllReach(G, gray, v) && HasEdge(G, v, w)
    ensures AllReach(G, gray + {v}, w)
  {
    hide Reaches, HasEdge;
    forall g | g in gray + {v}
      ensures Reaches(G, g, w)
    {
      ReachesSelf(G, v);
      ReachesSnoc(G, g, v, w);
    }
  }

  lemma GraysStacked(G: Succ, idx: map<Node, nat>, S: set<Node>, gray: set<Node>)
    requires Env(G, idx, S, gray)
    ensures gray <= S
  {
    hide NoWhite, DoneClosed, ReachesUp, AllLeadBack;
  }

  lemma InClosed(G: Succ, U: set<Node>, v: Node, w: Node)
    requires Closed(G, U) && v in U && HasEdge(G, v, w)
    ensures w in U
  {
  }

  lemma LowListed(G: Succ, states: map<Node, SccState>, stack: seq<Node>, sccs: seq<seq<Node>>, nextIdx: nat,
                  v: Node, low: nat)
    requires Listed(G, states, stack, sccs, nextIdx) && v in states
    ensures Listed(G, states[v := states[v].(lowlink := low)], stack, sccs, nextIdx)
  {
    hide Components, IndexOf, OnStack;
    LowerListed(states, v, low);
  }

  // Lowering v's lowlink keeps everything else the loop knows.
  lemma Lowers(G: Succ, states0: map<Node, SccState>, states: map<Node, SccState>, stack: seq<Node>,
               sccs: seq<seq<Node>>, nextIdx: nat, v: Node, low: nat)
    requires Listed(G, states, stack, sccs, nextIdx) && Untouched(states0, states) && v in states && v !in states0
    ensures var states' := states[v := states[v].(lowlink := low)];
            && Listed(G, states', stack, sccs, nextIdx) && Untouched(states0, states')
            && IndexOf(states') == IndexOf(states) && OnStack(states') == OnStack(states) && states'.Keys == states.Keys
  {
    hide Listed, IndexOf, OnStack;
    LowListed(G, states, stack, sccs, nextIdx, v, low);
    LowerListed(states, v, low);
  }

  lemma SeesState(G: Succ, idx: map<Node, nat>, S: set<Node>, gray: set<Node>, v: Node, n0: nat,
                  states: map<Node, SccState>, low: nat, seen: seq<Node>, w: Node)
    requires During(G, idx, S, gray, v, n0, IndexOf(states), OnStack(states), low, seen) && w in states
             && HasEdge(G, v, w)
    ensures During(G, idx, S, gray, v, n0, IndexOf(states), OnStack(states),
                   if states[w].onStack && states[w].index < low then states[w].index else low, seen + [w])
  {
    hide During, HasEdge;
    Sees(G, idx, S, gray, v, n0, IndexOf(states), OnStack(states), low, seen, w);
  }

  // The part of the stack a call pushed: its first node is the call's own.
  lemma TopElems(G: Succ, states: map<Node, SccState>, stack: seq<Node>, sccs: seq<seq<Node>>, nextIdx: nat,
                 stack0: seq<Node>, v: Node)
    requires Listed(G, states, stack, sccs, nextIdx) && stack0 + [v] <= stack
    ensures stack[|stack0|] == v && stack[..|stack0|] == stack0
    ensures Elems(stack[|stack0|..]) == OnStack(states) - Elems(stack0)
  {
    hide Components;
    var base := |stack0|;
    assert stack0 == stack[..base];
    assert stack == stack[..base] + stack[base..];
    assert forall n :: n in stack[..base] ==> n !in stack[base..];
  }

  // The nodes met before the call are not among those it takes off.
  lemma OldStay(states0: map<Node, SccState>, states: map<Node, SccState>, stack0: seq<Node>, stack: seq<Node>)
    requires Untouched(states0, states) && stack0 <= stack && Elems(stack0) == OnStack(states0)
    requires Elems(stack[|stack0|..]) == OnStack(states) - Elems(stack0)
    ensures Untouched(states0, TakenOff(states, Elems(stack[|stack0|..])))
  {
  }

  lemma NothingTaken(states: map<Node, SccState>, stack: seq<Node>)
    ensures TakenOff(states, Elems([])) == states && Elems(stack[|stack|..]) == Elems([]) && NoRepeat([])
  {
  }

  lemma PopOne(G: Succ, states: map<Node, SccState>, stack: seq<Node>, sccs: seq<seq<Node>>, nextIdx: nat, k: nat,
               scc: seq<Node>)
    requires Listed(G, states, stack, sccs, nextIdx) && k < |stack|
    requires Elems(scc) == Elems(stack[k + 1..]) && NoRepeat(scc)
    ensures stack[k] in states && stack[k] in TakenOff(states, Elems(scc)) && NoRepeat(scc + [stack[k]])
            && Elems(scc + [stack[k]]) == Elems(stack[k..])
    ensures TakenOff(states, Elems(scc))[stack[k] := TakenOff(states, Elems(scc))[stack[k]].(onStack := false)]
         == TakenOff(states, Elems(scc + [stack[k]]))
    ensures forall j :: 0 <= j < |stack| && stack[j] == stack[k] ==> j == k
  {
    hide Components, TakenOff;
    var w := stack[k];
    assert stack[k..] == [w] + stack[k + 1..];
    assert w !in stack[k + 1..];
    assert w !in Elems(scc);
    assert w in IndexOf(states);
    TakeOne(states, Elems(scc), w);
    assert Elems(scc + [w]) == Elems(scc) + {w};
  }

  class TarjanRunner {
    var states: map<Node, SccState>
    var stack: seq<Node>
    var sccs: seq<seq<Node>>
    var nextIdx: nat

    ghost predicate Valid(G: Succ, gray: set<Node>)
      reads this
    {
      && Env(G, IndexOf(states), OnStack(states), gray)
      && Listed(G, states, stack, sccs, nextIdx)
    }

    constructor ()
      ensures states == map[] && stack == [] && sccs == [] && nextIdx == 0
    {
      states, stack, sccs, nextIdx := map[], [], [], 0;
    }

    // Takes the stack off from v up, as one component.
    method PopComponent(G: Succ, v: Node, ghost base: nat)
      requires Listed(G, states, stack, sccs, nextIdx)
      requires base < |stack| && stack[base] == v && IsComponent(G, Elems(stack[base..]))
      modifies this
      ensures Listed(G, states, stack, sccs, nextIdx) && nextIdx == old(nextIdx)
      ensures stack == old(stack[..base]) && states == TakenOff(old(states), old(Elems(stack[base..])))
      ensures IndexOf(states) == IndexOf(old(states)) && OnStack(states) == Elems(stack)
    {
      hide Listed, IsComponent, TakenOff, NoRepeat, Elems, IndexOf, OnStack;
      ghost var full, top := states, stack;
      var scc: seq<Node> := [];
      NothingTaken(full, top);
      while true
        invariant sccs == old(sccs) && nextIdx == old(nextIdx)
        invariant base < |stack| <= |top| && stack == top[..|stack|]
        invariant Elems(scc) == Elems(top[|stack|..]) && NoRepeat(scc)
        invariant states == TakenOff(full, Elems(scc))
        decreases |stack|
      {
        var w := stack[|stack|-1];
        PopOne(G, full, top, sccs, nextIdx, |stack| - 1, scc);
        stack := stack[..|stack|-1];
        states := states[w := states[w].(onStack := false)];
        scc := scc + [w];
        if w == v {
          break;
        }
      }
      assert stack == top[..base];
      PopListed(G, full, top, sccs, nextIdx, base, scc);
      sccs := sccs + [scc];
    }

    // All flows of v are seen: v stays on the stack for a lower node, or its component is complete.
    method CloseCall(G: Succ, v: Node, ghost gray: set<Node>, ghost states0: map<Node, SccState>, ghost n0: nat,
                     ghost stack0: seq<Node>)
      requires Env(G, IndexOf(states0), OnStack(states0), gray) && Elems(stack0) == OnStack(states0)
      requires v in states && states[v].index == n0 < nextIdx
      requires During(G, IndexOf(states0), OnStack(states0), gray, v, n0, IndexOf(states), OnStack(states),
               states[v].lowlink, Outs(G, v))
      requires Listed(G, states, stack, sccs, nextIdx)
      requires Untouched(states0, states) && stack0 + [v] <= stack
      modifies this
      ensures Valid(G, gray) && states.Keys == old(states.Keys) && nextIdx == old(nextIdx)
      ensures Ended(G, IndexOf(states0), OnStack(states0), gray, v, n0, IndexOf(states), OnStack(states),
              states[v].lowlink)
      ensures Untouched(states0, states) && stack0 <= stack
    {
      hide Env, Listed, During, Ended, IndexOf, OnStack, Elems, IsComponent;
      ghost var idx0, on0, full, top := IndexOf(states0), OnStack(states0), states, stack;
      DuringEnv(G, idx0, on0, gray, v, n0, IndexOf(full), OnStack(full), full[v].lowlink, Outs(G, v));
      if states[v].lowlink == states[v].index {
        TopElems(G, full, top, sccs, nextIdx, stack0, v);
        GraysStacked(G, idx0, on0, gray);
        TopIsComponent(G, idx0, on0, gray, v, n0, IndexOf(full), OnStack(full));
        PopComponent(G, v, |stack0|);
        TakesOff(G, idx0, on0, gray, v, n0, IndexOf(full), OnStack(full));
        OldStay(states0, full, stack0, top);
      } else {
        Stays(G, idx0, on0, gray, v, n0, IndexOf(states), OnStack(states), states[v].lowlink);
      }
      EndedEnv(G, idx0, on0, gray, v, n0, IndexOf(states), OnStack(states), states[v].lowlink);
    }

    method StrongConnect(G: Succ, v: Node, ghost U: set<Node>, ghost gray: set<Node>)
      requires Valid(G, gray) && v !in states && AllReach(G, gray, v)
      requires v in U && Closed(G, U) && states.Keys <= U
      modifies this
      ensures Valid(G, gray) && states.Keys <= U && v in states
      ensures Ended(G, old(IndexOf(states)), old(OnStack(states)), gray, v, old(nextIdx), IndexOf(states),
              OnStack(states), states[v].lowlink)
      ensures Untouched(old(states), states) && old(stack) <= stack && old(nextIdx) < nextIdx
      decreases |U - states.Keys|
    {
      hide Env, Listed, During, Ended, AllReach, Closed, IndexOf, OnStack, Reaches, Untouched, HasEdge;
      ghost var idx0, on0, n0, stack0, states0 := IndexOf(states), OnStack(states), nextIdx, stack, states;
      IndexBelow(G, states, stack, sccs, nextIdx);
      Opens(G, idx0, on0, gray, v, n0);
      PushListed(G, states, stack, sccs, nextIdx, v);
      UntouchedSet(states, states, v, SccState(nextIdx, nextIdx, true));
      states := states[v := SccState(nextIdx, nextIdx, true)];
      nextIdx := nextIdx + 1;
      stack := stack + [v];
      var outs := Outs(G, v);
      for i := 0 to |outs|
        invariant v in states && states.Keys <= U && states[v].index == n0 < nextIdx
        invariant During(G, idx0, on0, gray, v, n0, IndexOf(states), OnStack(states), states[v].lowlink, outs[..i])
        invariant Listed(G, states, stack, sccs, nextIdx)
        invariant Untouched(states0, states) && stack0 + [v] <= stack
      {
        var w := outs[i];
        assert outs[..i + 1] == outs[..i] + [w];
        FlowTo(G, v, i);
        InClosed(G, U, v, w);
        ghost var states1, n1, stack1, low := states, nextIdx, stack, states[v].lowlink;
        if w !in states {
          DuringEnv(G, idx0, on0, gray, v, n0, IndexOf(states), OnStack(states), low, outs[..i]);
          NextReached(G, gray, v, w);
          UntouchedKeys(states0, states);
          FewerLeft(U, states0.Keys, states.Keys, v);
          StrongConnect(G, w, U, gray + {v});
          UntouchedKeys(states1, states);
          Returns(G, idx0, on0, gray, v, n0, IndexOf(states1), OnStack(states1), low, outs[..i], w, n1,
              IndexOf(states), OnStack(states), states[w].lowlink);
          UntouchedTrans(states0, states1, states);
          Lowers(G, states0, states, stack, sccs, nextIdx, v, Min(states[w].lowlink, low));
          if states[w].lowlink < states[v].lowlink {
            states := states[v := states[v].(lowlink := states[w].lowlink)];
          }
        } else {
          SeesState(G, idx0, on0, gray, v, n0, states, low, outs[..i], w);
          Lowers(G, states0, states, stack, sccs, nextIdx, v, states[w].index);
          if states[w].onStack {
            if states[w].index < states[v].lowlink {
              states := states[v := states[v].(lowlink := states[w].index)];
            }
          }
        }
      }
      assert outs[..|outs|] == outs;
      CloseCall(G, v, gray, states0, n0, stack0);
    }
  }

  // Every node met is reached from one of the roots.
  ghost predicate FromRoots(G: Succ, roots: set<Node>, S: set<Node>) {
    forall n :: n in S ==> exists r :: r in roots && Reaches(G, r, n)
  }

  lemma MoreFromRoots(G: Succ, roots: set<Node>, states: map<Node, SccState>, n0: nat, v: Node,
                      states': map<Node, SccState>, low: nat)
    requires FromRoots(G, roots, states.Keys) && v in roots
    requires Ended(G, IndexOf(states), OnStack(states), {}, v, n0, IndexOf(states'), OnStack(states'), low)
    ensures FromRoots(G, roots, states'.Keys)
  {
    hide Reaches, Env, LowReached, LowBounds;
  }

  lemma NoneOpen(G: Succ, idx: map<Node, nat>, S: set<Node>)
    requires S <= idx.Keys && AllLeadBack(G, idx, S, {})
    ensures S == {}
  {
    hide LeadsBack, Reaches;
    if S != {} {
      var y :| y in S;
      var x := LeadsBackTo(G, idx, {}, y);
    }
  }

  // With no call open the stack is empty and what was met is closed.
  lemma NothingStacked(G: Succ, states: map<Node, SccState>, stack: seq<Node>, sccs: seq<seq<Node>>, nextIdx: nat)
    requires Env(G, IndexOf(states), OnStack(states), {}) && Listed(G, states, stack, sccs, nextIdx)
    ensures Members(sccs) == states.Keys && Closed(G, Members(sccs)) && Components(G, sccs)
  {
    hide Reaches, NoWhite, ReachesUp, Components, HasEdge;
    NoneOpen(G, IndexOf(states), OnStack(states));
    assert IndexOf(states).Keys == states.Keys;
  }

  /**
   * The components of the graph: every node given is in one, every node in one
   * is reached from a node given, and no flow leaves their union.
   */
  method TarjanSCC(G: Succ, nodes: set<Node>) returns (sccs: seq<seq<Node>>)
    ensures Components(G, sccs) && nodes <= Members(sccs) && Closed(G, Members(sccs))
    ensures FromRoots(G, nodes, Members(sccs))
  {
    hide Env, Listed, Ended, AllReach, Closed, FromRoots, Reaches, Components;
    ghost var U := nodes + Targets(G);
    TargetsClosed(G, nodes);
    var r := new TarjanRunner();
    FreshRunner(G, nodes);
    assert r.states.Keys == {};
    var rest := nodes;
    while rest != {}
      invariant r.Valid(G, {}) && r.states.Keys <= U && rest <= nodes
      invariant nodes - rest <= r.states.Keys && FromRoots(G, nodes, r.states.Keys)
      decreases rest
    {
      var id :| id in rest;
      rest := rest - {id};
      if id !in r.states {
        ghost var states, n0 := r.states, r.nextIdx;
        assert AllReach(G, {}, id) by { NoneReach(G, id); }
        r.StrongConnect(G, id, U, {});
        MoreFromRoots(G, nodes, states, n0, id, r.states, r.states[id].lowlink);
      }
    }
    NothingStacked(G, r.states, r.stack, r.sccs, r.nextIdx);
    sccs := r.sccs;
  }

  lemma NoneReach(G: Succ, v: Node)
    ensures AllReach(G, {}, v)
  {
  }

  lemma TargetsClosed(G: Succ, nodes: set<Node>)
    ensures Closed(G, nodes + Targets(G))
  {
  }

  lemma FreshRunner(G: Succ, nodes: set<Node>)
    ensures Env(G, IndexOf(map[]), OnStack(map[]), {}) && Listed(G, map[], [], [], 0) && FromRoots(G, nodes, {})
  {
    assert IndexOf(map[]) == map[] && OnStack(map[]) == {} && Elems([]) == {};
  }
}

/**
 * Library-module resolution (module_resolution.go): a worklist over the module
 * versions a document calls, directly or through other modules, that records
 * each version once and loses no issue of a document it reached.
 */
module Resolution {
  import opened Wrappers
  import opened Graphs
  import opened Sets
  import opened Modules
  import opened Routes

  // A published version; its id is the key of its row.
  datatype Version = Version(id: Node, name: nat, number: nat, doc: Document)

  type Library = map<Key, Version>

  datatype Resolved = Resolved(key: Key, plan: ProcessId, doc: Document)

  // The main document has no version.
  datatype Pending = Pending(doc: Document, version: Option<Node>)

  /** moduleWalk, with the versions found kept beside their references. */
  datatype Walk = Walk(
    self: Option<ProcessId>,
    broken: set<Key>,
    modules: seq<Resolved>,
    issues: seq<Node>,
    refs: map<Node, Version>,
    resolvedTo: map<Key, Version>,
    failed: set<Key>,
    queue: seq<Pending>,
    callers: Callers,
    docIssues: map<Node, seq<Node>>,
    issueOrder: seq<Node>)

  function Begin(self: Option<ProcessId>, broken: set<Key>, main: Document): Walk {
    Walk(self, broken, [], [], map[], map[], {}, [Pending(main, None)], map[], map[], [])
  }

  function PlanOf(v: Version): ProcessId {
    PlanName(v.name, v.number)
  }

  // ----- the steps -----

  function HopFrom(doc: Pending, call: ModuleCall, v: Version): Hop {
    match doc.version
    case None => FromRoot(call.call, Label(v.id.id))
    case Some(parent) => FromModule(parent, Label(v.id.id))
  }

  function Reach(w: Walk, doc: Pending, call: ModuleCall, v: Version): Walk {
    var h := HopFrom(doc, call, v);
    if h in HopsTo(w.callers, v.id) then w else w.(callers := w.callers[v.id := HopsTo(w.callers, v.id) + [h]])
  }

  function Report(w: Walk, doc: Pending, at: Node): Walk {
    match doc.version
    case None => w.(issues := w.issues + [at])
    case Some(id) =>
      if id in w.docIssues then w.(docIssues := w.docIssues[id := w.docIssues[id] + [at]])
      else w.(docIssues := w.docIssues[id := [at]], issueOrder := w.issueOrder + [id])
  }

  // A version met by a key not looked up before.
  function Record(w: Walk, key: Key, v: Version): Walk {
    var w1 := w.(modules := w.modules + [Resolved(key, PlanOf(v), v.doc)]);
    if v.id in w.refs then w1
    else w1.(refs := w.refs[v.id := v], queue := w.queue + [Pending(v.doc, Some(v.id))])
  }

  // The walk after a version is found by a new key.
  function Found(library: Library, w: Walk, doc: Pending, call: ModuleCall): Walk
    requires call.key in library
  {
    var v := library[call.key];
    Record(Reach(w.(resolvedTo := w.resolvedTo[call.key := v]), doc, call, v), call.key, v)
  }

  // A call of the module being saved, at its latest version.
  predicate CallsSelf(self: Option<ProcessId>, call: ModuleCall) {
    self == Some(call.key.process) && call.key.version == 0
  }

  function Visit(library: Library, w: Walk, doc: Pending, call: ModuleCall): Walk {
    if CallsSelf(w.self, call) then Report(w, doc, call.call)
    else if call.key in w.failed then Report(w, doc, call.call)
    else if call.key in w.resolvedTo then Reach(w, doc, call, w.resolvedTo[call.key])
    else if call.key !in library then Report(w.(failed := w.failed + {call.key}), doc, call.call)
    else Found(library, w, doc, call)
  }

  // ----- what every step keeps -----

  // One row per version id.
  ghost predicate Consistent(library: Library) {
    forall k, k' :: k in library && k' in library && library[k].id == library[k'].id ==> library[k] == library[k']
  }

  ghost predicate KeysResolved(library: Library, w: Walk) {
    && (forall k :: k in w.resolvedTo ==> k in library && w.resolvedTo[k] == library[k])
    && (forall k :: k in w.resolvedTo ==> w.resolvedTo[k].id in w.refs && w.refs[w.resolvedTo[k].id] == w.resolvedTo[k])
    && (forall id :: id in w.refs ==> w.refs[id].id == id && w.refs[id] in library.Values)
  }

  // Each key looked up has one module entry, that of the version it resolves to.
  ghost predicate ModulesListed(w: Walk) {
    && (forall k :: k in w.resolvedTo ==> Resolved(k, PlanOf(w.resolvedTo[k]), w.resolvedTo[k].doc) in w.modules)
    && (forall m :: m in w.modules ==>
        m.key in w.resolvedTo && m == Resolved(m.key, PlanOf(w.resolvedTo[m.key]), w.resolvedTo[m.key].doc))
  }

  ghost predicate Reached(w: Walk, id: Node) {
    exists c :: RootCall(w.callers, id, c)
  }

  ghost predicate AllReached(w: Walk) {
    forall id :: id in w.refs ==> Reached(w, id)
  }

  // Issues of module documents are kept for versions recorded, none empty.
  ghost predicate IssuesKept(w: Walk) {
    && (forall id :: id in w.docIssues <==> id in w.issueOrder)
    && (forall id :: id in w.docIssues ==> id in w.refs && w.docIssues[id] != [])
  }

  // Every version recorded waits in the queue, once, or has been read.
  ghost predicate QueueOk(w: Walk, read: set<Node>) {
    && (forall i :: 0 <= i < |w.queue| && w.queue[i].version.Some? ==>
          var id := w.queue[i].version.value; id in w.refs && id !in read && w.queue[i].doc == w.refs[id].doc)
    && (forall i, j :: 0 <= i < j < |w.queue| ==> w.queue[i].version != w.queue[j].version)
    && (forall id :: id in w.refs ==> id in read || exists i :: 0 <= i < |w.queue| && w.queue[i].version == Some(id))
  }

  ghost predicate WalkOk(library: Library, w: Walk) {
    KeysResolved(library, w) && ModulesListed(w) && AllReached(w) && IssuesKept(w)
  }

  // The document being read is the main one or that of a version recorded.
  ghost predicate Reads(w: Walk, doc: Pending) {
    doc.version.Some? ==> doc.version.value in w.refs
  }

  ghost predicate Reported(w: Walk, doc: Pending) {
    match doc.version
    case None => w.issues != []
    case Some(id) => id in w.docIssues
  }

  // An issue of the main document stands at its own place, one of a module with the version.
  ghost predicate ReportedAt(w: Walk, doc: Pending, at: Node) {
    match doc.version
    case None => at in w.issues
    case Some(id) => id in w.docIssues
  }

  lemma ReportedSome(w: Walk, doc: Pending, at: Node)
    requires ReportedAt(w, doc, at)
    ensures Reported(w, doc)
  {
  }

  // The queue changes only when a version is recorded.
  ghost predicate Longer(w: Walk, w': Walk) {
    w.refs.Keys <= w'.refs.Keys && (w'.refs.Keys == w.refs.Keys ==> w'.queue == w.queue)
  }

  // What a step never takes back.
  ghost predicate Grows(w: Walk, w': Walk) {
    && w.resolvedTo.Keys <= w'.resolvedTo.Keys
    && (forall k :: k in w.resolvedTo ==> w'.resolvedTo[k] == w.resolvedTo[k])
    && w.refs.Keys <= w'.refs.Keys && (forall id :: id in w.refs ==> w'.refs[id] == w.refs[id])
    && w.docIssues.Keys <= w'.docIssues.Keys && w.issues <= w'.issues
    && w.failed <= w'.failed && w'.self == w.self && w'.broken == w.broken
    && MoreHops(w.callers, w'.callers)
  }

  ghost predicate MoreHops(callers: Callers, callers': Callers) {
    forall id, h :: h in HopsTo(callers, id) ==> h in HopsTo(callers', id)
  }

  lemma GrowsTrans(a: Walk, b: Walk, c: Walk)
    requires Grows(a, b) && Grows(b, c)
    ensures Grows(a, c)
  {
    hide HopsTo;
  }

  // ----- reachability only grows -----

  lemma {:induction false} ChainStays(callers: Callers, callers': Callers, id: Node, r: Route)
    requires MoreHops(callers, callers') && Chain(callers, id, r, {})
    ensures Chain(callers', id, r, {})
    decreases |r.path|
  {
    hide Chain, HopsTo;
    var h := ChainLast(callers, id, r, {});
    match h
    case FromRoot(_, _) =>
      ChainByRoot(callers', id, h, {});
      assert r == Route(h.call, [h.via]);
    case FromModule(_, _) =>
      var init := Route(r.call, r.path[..|r.path|-1]);
      ChainStays(callers, callers', h.parent, init);
      ChainByModule(callers', id, h, init, {});
      assert r == Route(init.call, init.path + [h.via]);
  }

  lemma ReachedStays(w: Walk, w': Walk, id: Node)
    requires Reached(w, id) && MoreHops(w.callers, w'.callers)
    ensures Reached(w', id)
  {
    hide Chain, HopsTo, MoreHops;
    var c :| RootCall(w.callers, id, c);
    var r: Route :| r.call == c && Chain(w.callers, id, r, {});
    ChainStays(w.callers, w'.callers, id, r);
    assert RootCall(w'.callers, id, c);
  }

  lemma ReachedByHop(w: Walk, doc: Pending, call: ModuleCall, v: Version)
    requires Reads(w, doc) && AllReached(w) && HopFrom(doc, call, v) in HopsTo(w.callers, v.id)
    ensures Reached(w, v.id)
  {
    hide Chain, HopsTo;
    var h := HopFrom(doc, call, v);
    match doc.version
    case None =>
      ChainByRoot(w.callers, v.id, h, {});
      assert RootCall(w.callers, v.id, h.call);
    case Some(parent) =>
      assert Reached(w, parent);
      var c :| RootCall(w.callers, parent, c);
      var r: Route :| r.call == c && Chain(w.callers, parent, r, {});
      ChainByModule(w.callers, v.id, h, r, {});
      assert RootCall(w.callers, v.id, c);
  }

  lemma ReachHops(w: Walk, doc: Pending, call: ModuleCall, v: Version)
    ensures var w' := Reach(w, doc, call, v);
            MoreHops(w.callers, w'.callers) && HopFrom(doc, call, v) in HopsTo(w'.callers, v.id)
                && w' == w.(callers := w'.callers)
  {
  }

  // ----- each step keeps what the walk knows -----

  // Keys, modules and reachability depend on these fields only.
  lemma SameListing(library: Library, w: Walk, w': Walk)
    requires KeysResolved(library, w) && ModulesListed(w) && AllReached(w)
    requires w'.modules == w.modules && w'.refs == w.refs && w'.resolvedTo == w.resolvedTo && w'.callers == w.callers
    ensures KeysResolved(library, w') && ModulesListed(w') && AllReached(w')
  {
    hide RootCall;
    forall id | id in w'.refs
      ensures Reached(w', id)
    {
      assert Reached(w, id);
    }
  }

  lemma ReportIssues(w: Walk, doc: Pending, at: Node)
    requires IssuesKept(w) && Reads(w, doc)
    ensures IssuesKept(Report(w, doc, at)) && ReportedAt(Report(w, doc, at), doc, at)
    ensures w.docIssues.Keys <= Report(w, doc, at).docIssues.Keys && w.issues <= Report(w, doc, at).issues
  {
    var w' := Report(w, doc, at);
    if doc.version.Some? && doc.version.value !in w.docIssues {
      forall id
        ensures id in w'.docIssues <==> id in w'.issueOrder
      {
      }
    }
  }

  lemma ReportKeeps(library: Library, w: Walk, doc: Pending, at: Node)
    requires WalkOk(library, w) && Reads(w, doc)
    ensures var w' := Report(w, doc, at);
            && WalkOk(library, w') && Grows(w, w') && ReportedAt(w', doc, at)
            && w'.refs == w.refs && w'.queue == w.queue && w'.resolvedTo == w.resolvedTo && w'.failed == w.failed
  {
    hide KeysResolved, ModulesListed, AllReached, IssuesKept, ReportedAt, Grows;
    SameListing(library, w, Report(w, doc, at));
    ReportIssues(w, doc, at);
    ReportGrows(w, doc, at);
  }

  lemma ReportGrows(w: Walk, doc: Pending, at: Node)
    ensures Grows(w, Report(w, doc, at))
  {
    hide MoreHops;
    SameHops(w.callers);
  }

  lemma FailKeeps(library: Library, w: Walk, key: Key)
    requires WalkOk(library, w)
    ensures WalkOk(library, w.(failed := w.failed + {key}))
  {
    hide KeysResolved, ModulesListed, AllReached;
    SameListing(library, w, w.(failed := w.failed + {key}));
  }

  lemma ReachKeeps(library: Library, w: Walk, doc: Pending, call: ModuleCall, v: Version)
    requires WalkOk(library, w) && Reads(w, doc)
    ensures var w' := Reach(w, doc, call, v);
            WalkOk(library, w') && Grows(w, w') && Reached(w', v.id) && w'.refs == w.refs && w'.queue == w.queue
                && w'.resolvedTo == w.resolvedTo
  {
    hide HopsTo, MoreHops, Reached, HopFrom;
    ReachHops(w, doc, call, v);
    var w' := Reach(w, doc, call, v);
    forall id | id in w.refs
      ensures Reached(w', id)
    {
      ReachedStays(w, w', id);
    }
    ReachedByHop(w', doc, call, v);
  }

  lemma FoundFields(library: Library, w: Walk, doc: Pending, call: ModuleCall)
    requires call.key in library && call.key !in w.resolvedTo
    ensures var v := library[call.key];
            var w' := Found(library, w, doc, call);
            && w'.resolvedTo == w.resolvedTo[call.key := v] && w'.issues == w.issues
            && w'.docIssues == w.docIssues && w'.issueOrder == w.issueOrder
            && w'.modules == w.modules + [Resolved(call.key, PlanOf(v), v.doc)]
            && (if v.id in w.refs then w'.refs == w.refs && w'.queue == w.queue
                else w'.refs == w.refs[v.id := v] && w'.queue == w.queue + [Pending(v.doc, Some(v.id))])
            && MoreHops(w.callers, w'.callers) && HopFrom(doc, call, v) in HopsTo(w'.callers, v.id)
  {
    hide HopsTo, MoreHops, HopFrom;
    var v := library[call.key];
    ReachHops(w.(resolvedTo := w.resolvedTo[call.key := v]), doc, call, v);
  }

  // A version already recorded under the same id is the same version.
  lemma SameRow(library: Library, w: Walk, key: Key)
    requires KeysResolved(library, w) && Consistent(library) && key in library && library[key].id in w.refs
    ensures w.refs[library[key].id] == library[key]
  {
    var k :| k in library && library[k] == w.refs[library[key].id];
    assert library[k].id == library[key].id;
  }

  lemma ResolvedMore(library: Library, w: Walk, w': Walk, key: Key)
    requires KeysResolved(library, w) && key in library && w'.resolvedTo == w.resolvedTo[key := library[key]]
    requires var v := library[key]; if v.id in w.refs then w'.refs == w.refs
             && w.refs[v.id] == v else w'.refs == w.refs[v.id := v]
    ensures KeysResolved(library, w')
  {
    assert library[key] in library.Values;
  }

  lemma FoundResolved(library: Library, w: Walk, doc: Pending, call: ModuleCall)
    requires KeysResolved(library, w) && Consistent(library) && call.key in library && call.key !in w.resolvedTo
    ensures KeysResolved(library, Found(library, w, doc, call))
  {
    FoundFields(library, w, doc, call);
    if library[call.key].id in w.refs {
      SameRow(library, w, call.key);
    }
    hide *;
    ResolvedMore(library, w, Found(library, w, doc, call), call.key);
  }

  lemma ListedMore(w: Walk, w': Walk, key: Key, v: Version)
    requires ModulesListed(w) && key !in w.resolvedTo
    requires w'.resolvedTo == w.resolvedTo[key := v] && w'.modules == w.modules + [Resolved(key, PlanOf(v), v.doc)]
    ensures ModulesListed(w')
  {
    hide PlanOf;
  }

  lemma FoundListed(library: Library, w: Walk, doc: Pending, call: ModuleCall)
    requires ModulesListed(w) && call.key in library && call.key !in w.resolvedTo
    ensures ModulesListed(Found(library, w, doc, call))
  {
    FoundFields(library, w, doc, call);
    hide *;
    ListedMore(w, Found(library, w, doc, call), call.key, library[call.key]);
  }

  lemma FoundReached(library: Library, w: Walk, doc: Pending, call: ModuleCall)
    requires AllReached(w) && Reads(w, doc) && call.key in library && call.key !in w.resolvedTo
    ensures AllReached(Found(library, w, doc, call))
  {
    FoundFields(library, w, doc, call);
    hide Found, MoreHops, HopsTo, Reached, HopFrom;
    var v := library[call.key];
    var w' := Found(library, w, doc, call);
    forall id | id in w.refs
      ensures Reached(w', id) && Reached(w'.(refs := w.refs), id)
    {
      ReachedStays(w, w', id);
      ReachedStays(w, w'.(refs := w.refs), id);
    }
    ReachedByHop(w'.(refs := w.refs), doc, call, v);
    assert MoreHops(w'.callers, w'.callers) by { SameHops(w'.callers); }
    ReachedStays(w'.(refs := w.refs), w', v.id);
  }

  lemma SameHops(callers: Callers)
    ensures MoreHops(callers, callers)
  {
  }

  lemma FoundIssues(library: Library, w: Walk, doc: Pending, call: ModuleCall)
    requires IssuesKept(w) && call.key in library && call.key !in w.resolvedTo
    ensures IssuesKept(Found(library, w, doc, call)) && Grows(w, Found(library, w, doc, call))
  {
    FoundFields(library, w, doc, call);
    hide Found, MoreHops, HopsTo, HopFrom, PlanOf;
  }

  lemma FoundKeeps(library: Library, w: Walk, doc: Pending, call: ModuleCall)
    requires WalkOk(library, w) && Reads(w, doc) && Consistent(library)
    requires call.key in library && call.key !in w.resolvedTo
    ensures WalkOk(library, Found(library, w, doc, call)) && Grows(w, Found(library, w, doc, call))
  {
    hide Found, AllReached, ModulesListed, KeysResolved, IssuesKept, Grows;
    FoundResolved(library, w, doc, call);
    FoundListed(library, w, doc, call);
    FoundReached(library, w, doc, call);
    FoundIssues(library, w, doc, call);
  }

  // The call now resolves and its hop is noted, or it is known not to and is reported.
  ghost predicate Settled(w: Walk, doc: Pending, call: ModuleCall) {
    || (ReportedAt(w, doc, call.call) && (CallsSelf(w.self, call) || call.key in w.failed))
    || (call.key in w.resolvedTo && !CallsSelf(w.self, call)
        && HopFrom(doc, call, w.resolvedTo[call.key]) in HopsTo(w.callers, w.resolvedTo[call.key].id))
  }

  lemma VisitKeeps(library: Library, w: Walk, doc: Pending, call: ModuleCall, read: set<Node>)
    requires WalkOk(library, w) && Reads(w, doc) && Consistent(library) && QueueOk(w, read) && read <= w.refs.Keys
    ensures var w' := Visit(library, w, doc, call);
            WalkOk(library, w') && Reads(w', doc) && Grows(w, w') && QueueOk(w', read) && read <= w'.refs.Keys
                && Settled(w', doc, call)
  {
    hide WalkOk, Reach, Report, Found, QueueOk, MoreHops, HopsTo, HopFrom;
    var w' := Visit(library, w, doc, call);
    if CallsSelf(w.self, call) || call.key in w.failed {
      ReportKeeps(library, w, doc, call.call);
      SameQueue(w, w', read);
    } else if call.key in w.resolvedTo {
      ReachKeeps(library, w, doc, call, w.resolvedTo[call.key]);
      ReachHops(w, doc, call, w.resolvedTo[call.key]);
      SameQueue(w, w', read);
    } else if call.key !in library {
      FailKeeps(library, w, call.key);
      ReportKeeps(library, w.(failed := w.failed + {call.key}), doc, call.call);
      SameQueue(w, w', read);
    } else {
      FoundKeeps(library, w, doc, call);
      FoundFields(library, w, doc, call);
      if library[call.key].id in w.refs {
        SameQueue(w, w', read);
      } else {
        Enqueued(w, w', library[call.key], read);
      }
    }
  }

  lemma SameQueue(w: Walk, w': Walk, read: set<Node>)
    requires QueueOk(w, read) && w'.queue == w.queue && w'.refs == w.refs
    ensures QueueOk(w', read)
  {
  }

  lemma Enqueued(w: Walk, w': Walk, v: Version, read: set<Node>)
    requires QueueOk(w, read) && read <= w.refs.Keys && v.id !in w.refs
    requires w'.queue == w.queue + [Pending(v.doc, Some(v.id))] && w'.refs == w.refs[v.id := v]
    ensures QueueOk(w', read)
  {
    forall id | id in w'.refs
      ensures id in read || exists i :: 0 <= i < |w'.queue| && w'.queue[i].version == Some(id)
    {
      if id == v.id {
        assert w'.queue[|w.queue|].version == Some(id);
      } else if id !in read {
        var i :| 0 <= i < |w.queue| && w.queue[i].version == Some(id);
        assert w'.queue[i].version == Some(id);
      }
    }
  }

  // ----- the worklist -----

  ghost predicate HasIssue(doc: Document) {
    exists n :: IssueAt(doc, n)
  }

  // Every library call of the document is settled, and none that names no module goes unreported.
  ghost predicate AllSettled(w: Walk, doc: Pending) {
    && (forall call :: IsCall(doc.doc, call) ==> Settled(w, doc, call))
    && (forall n :: IssueAt(doc.doc, n) ==> ReportedAt(w, doc, n))
  }

  lemma SettledStays(w: Walk, w': Walk, doc: Pending)
    requires AllSettled(w, doc) && Grows(w, w')
    ensures AllSettled(w', doc)
  {
    hide IsCall, IssueAt, HopsTo;
  }

  ghost predicate ReadSettled(w: Walk, read: set<Node>) {
    forall id :: id in read ==> id in w.refs && AllSettled(w, Pending(w.refs[id].doc, Some(id)))
  }

  lemma ReadStays(w: Walk, w': Walk, read: set<Node>)
    requires ReadSettled(w, read) && Grows(w, w')
    ensures ReadSettled(w', read)
  {
    hide AllSettled;
    forall id | id in read
      ensures id in w'.refs && AllSettled(w', Pending(w'.refs[id].doc, Some(id)))
    {
      SettledStays(w, w', Pending(w.refs[id].doc, Some(id)));
    }
  }

  // The main document is still to be read, or settled.
  ghost predicate MainOk(w: Walk, main: Document, read: bool) {
    if read then AllSettled(w, Pending(main, None)) && forall p :: p in w.queue ==> p.version.Some?
    else w.queue == [Pending(main, None)] && w.refs == map[]
  }

  ghost function Ids(library: Library): set<Node> {
    set k | k in library :: library[k].id
  }

  // Reading the first document of the queue.
  lemma Dequeues(library: Library, w: Walk, read: set<Node>)
    requires WalkOk(library, w) && QueueOk(w, read) && read <= w.refs.Keys && w.queue != []
    ensures var doc, w' := w.queue[0], w.(queue := w.queue[1..]);
            && WalkOk(library, w') && Reads(w', doc) && Grows(w, w')
            && (if doc.version.None? then QueueOk(w', read) else QueueOk(w', read + {doc.version.value}))
            && (doc.version.Some? ==> doc.version.value in w.refs && doc.doc == w.refs[doc.version.value].doc)
  {
    hide KeysResolved, ModulesListed, AllReached;
    var doc, w' := w.queue[0], w.(queue := w.queue[1..]);
    SameListing(library, w, w');
    forall id | id in w'.refs && id !in read && doc.version != Some(id)
      ensures exists i :: 0 <= i < |w'.queue| && w'.queue[i].version == Some(id)
    {
      var i :| 0 <= i < |w.queue| && w.queue[i].version == Some(id);
      assert w'.queue[i - 1].version == Some(id);
    }
  }

  // ----- why an issue is reported -----

  // A call of the latest version of the module being saved, or of a module that is not there.
  predicate Faulty(library: Library, self: Option<ProcessId>, call: ModuleCall) {
    (self == Some(call.key.process) && call.key.version == 0) || call.key !in library
  }

  ghost predicate FaultyDoc(library: Library, self: Option<ProcessId>, doc: Document) {
    HasIssue(doc) || exists call :: IsCall(doc, call) && Faulty(library, self, call)
  }

  ghost predicate CallsVersion(library: Library, self: Option<ProcessId>, doc: Document, v: Version) {
    exists call :: IsCall(doc, call) && !Faulty(library, self, call) && library[call.key] == v
  }

  // Each version is called by the one before, and the first by the main document.
  ghost predicate Leading(library: Library, self: Option<ProcessId>, main: Document, path: seq<Version>) {
    && path != [] && CallsVersion(library, self, main, path[0])
    && forall i :: 0 < i < |path| ==> CallsVersion(library, self, path[i - 1].doc, path[i])
  }

  /** The main document calls v, itself or through other versions. */
  ghost predicate Needed(library: Library, self: Option<ProcessId>, main: Document, v: Version) {
    exists path :: Leading(library, self, main, path) && path[|path|-1] == v
  }

  /** The main document or a version it needs has an issue of its own or a faulty call. */
  ghost predicate SomeFault(library: Library, self: Option<ProcessId>, main: Document) {
    FaultyDoc(library, self, main) || exists v :: Needed(library, self, main, v) && FaultyDoc(library, self, v.doc)
  }

  // An issue of the document itself, or a faulty call of it, stands there.
  ghost predicate FaultyAt(library: Library, self: Option<ProcessId>, doc: Document, n: Node) {
    IssueAt(doc, n) || exists call :: IsCall(doc, call) && Faulty(library, self, call) && call.call == n
  }

  // A call of the document reaches the version.
  ghost predicate CallsAt(library: Library, self: Option<ProcessId>, doc: Document, call: ModuleCall, v: Version) {
    IsCall(doc, call) && !Faulty(library, self, call) && library[call.key] == v
  }

  // The hop is that of a call of the main document or of a version recorded.
  ghost predicate HopTrue(library: Library, w: Walk, main: Document, id: Node, h: Hop) {
    && id in w.refs
    && match h
       case FromRoot(c, _) => exists call :: CallsAt(library, w.self, main, call, w.refs[id]) && call.call == c
       case FromModule(parent, _) =>
         parent in w.refs && exists call :: CallsAt(library, w.self, w.refs[parent].doc, call, w.refs[id])
  }

  ghost predicate HopsTrue(library: Library, w: Walk, main: Document) {
    forall id, h :: h in HopsTo(w.callers, id) ==> HopTrue(library, w, main, id, h)
  }

  // Every version recorded is needed, and every issue has its reason.
  ghost predicate Justified(library: Library, w: Walk, main: Document) {
    && (forall k :: k in w.failed ==> k !in library && k !in w.broken)
    && w.resolvedTo.Keys !! w.broken
    && (forall n :: n in w.issues ==> FaultyAt(library, w.self, main, n))
    && (forall id :: id in w.docIssues ==> id in w.refs && FaultyDoc(library, w.self, w.refs[id].doc))
    && (forall id :: id in w.refs ==> Needed(library, w.self, main, w.refs[id]))
  }

  // Looking a call up fails for another reason than that the module is missing.
  predicate Breaks(broken: set<Key>, self: Option<ProcessId>, call: ModuleCall) {
    !(self == Some(call.key.process) && call.key.version == 0) && call.key in broken
  }

  ghost predicate BreakingDoc(broken: set<Key>, self: Option<ProcessId>, doc: Document) {
    exists call :: IsCall(doc, call) && Breaks(broken, self, call)
  }

  /** The main document or a version it needs has a call whose lookup fails. */
  ghost predicate SomeBreak(library: Library, broken: set<Key>, self: Option<ProcessId>, main: Document) {
    BreakingDoc(broken, self, main) || exists v :: Needed(library, self, main, v) && BreakingDoc(broken, self, v.doc)
  }

  // doc is the main document or that of a version recorded.
  ghost predicate DocOf(w: Walk, main: Document, doc: Pending) {
    match doc.version
    case None => doc.doc == main
    case Some(id) => id in w.refs && doc.doc == w.refs[id].doc
  }

  lemma NeededNext(library: Library, w: Walk, main: Document, doc: Pending, v: Version)
    requires Justified(library, w, main) && DocOf(w, main, doc) && CallsVersion(library, w.self, doc.doc, v)
    ensures Needed(library, w.self, main, v)
  {
    hide CallsVersion, FaultyDoc;
    match doc.version
    case None =>
      assert Leading(library, w.self, main, [v]);
    case Some(id) =>
      assert Needed(library, w.self, main, w.refs[id]);
      var path :| Leading(library, w.self, main, path) && path[|path|-1] == w.refs[id];
      assert Leading(library, w.self, main, path + [v]);
  }

  /** Every version recorded, every hop and every issue has its reason. */
  ghost predicate Explains(library: Library, w: Walk, main: Document) {
    Justified(library, w, main) && HopsTrue(library, w, main)
  }

  lemma ReportJustified(library: Library, w: Walk, main: Document, doc: Pending, at: Node)
    requires Justified(library, w, main) && DocOf(w, main, doc) && FaultyAt(library, w.self, doc.doc, at)
    ensures Justified(library, Report(w, doc, at), main)
  {
    hide IssueAt, IsCall, Needed, Faulty;
    assert FaultyDoc(library, w.self, doc.doc);
    hide FaultyDoc, FaultyAt;
  }

  // Hops depend on these fields only.
  lemma SameHopsTrue(library: Library, w: Walk, w': Walk, main: Document)
    requires HopsTrue(library, w, main) && w'.callers == w.callers && w'.refs == w.refs && w'.self == w.self
    ensures HopsTrue(library, w', main)
  {
    hide CallsAt, HopsTo;
    forall id, h | h in HopsTo(w'.callers, id)
      ensures HopTrue(library, w', main, id, h)
    {
      assert HopTrue(library, w, main, id, h);
    }
  }

  lemma ReportExplains(library: Library, w: Walk, main: Document, doc: Pending, at: Node)
    requires Explains(library, w, main) && DocOf(w, main, doc) && FaultyAt(library, w.self, doc.doc, at)
    ensures Explains(library, Report(w, doc, at), main)
  {
    hide Justified, HopsTrue, DocOf, FaultyAt;
    ReportJustified(library, w, main, doc, at);
    SameHopsTrue(library, w, Report(w, doc, at), main);
  }

  lemma VisitJustified(library: Library, w: Walk, main: Document, doc: Pending, call: ModuleCall)
    requires Justified(library, w, main) && DocOf(w, main, doc) && IsCall(doc.doc, call)
    requires CallsSelf(w.self, call) || call.key in w.failed || call.key in w.resolvedTo || call.key !in w.broken
    ensures Justified(library, Visit(library, w, doc, call), main)
  {
    hide Needed, HopsTo, HopFrom, Report, Reach, Found, MoreHops, IsCall, Justified, IssueAt;
    assert Faulty(library, w.self, call) ==> FaultyAt(library, w.self, doc.doc, call.call);
    if CallsSelf(w.self, call) || (call.key in w.failed && call.key !in library) {
      ReportJustified(library, w, main, doc, call.call);
    } else if call.key in w.failed {
      FailedMissing(library, w, main, call.key);
    } else if call.key in w.resolvedTo {
      ReachHops(w, doc, call, w.resolvedTo[call.key]);
      SameReasons(library, w, Reach(w, doc, call, w.resolvedTo[call.key]), main);
    } else if call.key !in library {
      FailedMore(library, w, main, call.key);
      ReportJustified(library, w.(failed := w.failed + {call.key}), main, doc, call.call);
    } else {
      assert CallsVersion(library, w.self, doc.doc, library[call.key]);
      FoundJustified(library, w, main, doc, call);
    }
  }

  // The hop of a call that finds v, and the versions it may record.
  lemma HopAdded(library: Library, w: Walk, w': Walk, main: Document, doc: Pending, call: ModuleCall, v: Version)
    requires HopsTrue(library, w, main) && DocOf(w, main, doc) && CallsAt(library, w.self, doc.doc, call, v)
    requires w'.self == w.self && v.id in w'.refs && w'.refs[v.id] == v
    requires w.refs.Keys <= w'.refs.Keys && forall id :: id in w.refs ==> w'.refs[id] == w.refs[id]
    requires forall id, h :: h in HopsTo(w'.callers, id) ==>
               h in HopsTo(w.callers, id) || (id == v.id && h == HopFrom(doc, call, v))
    ensures HopsTrue(library, w', main)
  {
    hide CallsAt, HopsTo;
    forall id, h | h in HopsTo(w'.callers, id)
      ensures HopTrue(library, w', main, id, h)
    {
      if h in HopsTo(w.callers, id) {
        assert HopTrue(library, w, main, id, h);
      }
    }
  }

  lemma ReachAdds(w: Walk, doc: Pending, call: ModuleCall, v: Version)
    ensures var w' := Reach(w, doc, call, v);
            forall id, h :: h in HopsTo(w'.callers, id) ==>
                h in HopsTo(w.callers, id) || (id == v.id && h == HopFrom(doc, call, v))
  {
    hide HopFrom;
  }

  lemma FoundAdds(library: Library, w: Walk, doc: Pending, call: ModuleCall)
    requires call.key in library
    ensures var w', v := Found(library, w, doc, call), library[call.key];
            && w'.callers == Reach(w.(resolvedTo := w.resolvedTo[call.key := v]), doc, call, v).callers
            && forall id, h :: h in HopsTo(w'.callers, id) ==>
                h in HopsTo(w.callers, id) || (id == v.id && h == HopFrom(doc, call, v))
  {
    hide HopFrom, HopsTo;
    var v := library[call.key];
    ReachAdds(w.(resolvedTo := w.resolvedTo[call.key := v]), doc, call, v);
  }

  lemma VisitHops(library: Library, w: Walk, main: Document, doc: Pending, call: ModuleCall)
    requires HopsTrue(library, w, main) && DocOf(w, main, doc) && IsCall(doc.doc, call)
    requires KeysResolved(library, w) && Consistent(library)
    ensures HopsTrue(library, Visit(library, w, doc, call), main)
  {
    hide HopsTrue, HopsTo, HopFrom, IsCall, DocOf, Report, Reach, Found;
    var w' := Visit(library, w, doc, call);
    if CallsSelf(w.self, call) || call.key in w.failed {
      ReportHops(w, doc, call.call);
      SameHopsTrue(library, w, w', main);
    } else if call.key in w.resolvedTo {
      var v := w.resolvedTo[call.key];
      assert CallsAt(library, w.self, doc.doc, call, v);
      ReachAdds(w, doc, call, v);
      ReachHops(w, doc, call, v);
      HopAdded(library, w, w', main, doc, call, v);
    } else if call.key !in library {
      ReportHops(w.(failed := w.failed + {call.key}), doc, call.call);
      SameHopsTrue(library, w, w', main);
    } else {
      var v := library[call.key];
      assert CallsAt(library, w.self, doc.doc, call, v);
      FoundAdds(library, w, doc, call);
      FoundFields(library, w, doc, call);
      FoundLeaves(library, w, doc, call);
      if v.id in w.refs {
        SameRow(library, w, call.key);
      }
      hide KeysResolved, Consistent, Visit;
      HopAdded(library, w, Found(library, w, doc, call), main, doc, call, v);
    }
  }

  lemma ReportHops(w: Walk, doc: Pending, at: Node)
    ensures var w' := Report(w, doc, at); w'.callers == w.callers && w'.refs == w.refs && w'.self == w.self
  {
  }

  lemma VisitExplains(library: Library, w: Walk, main: Document, doc: Pending, call: ModuleCall)
    requires Explains(library, w, main) && DocOf(w, main, doc) && IsCall(doc.doc, call)
    requires WalkOk(library, w) && Consistent(library)
    requires CallsSelf(w.self, call) || call.key in w.failed || call.key in w.resolvedTo || call.key !in w.broken
    ensures Explains(library, Visit(library, w, doc, call), main)
  {
    hide Justified, HopsTrue, DocOf, IsCall, KeysResolved, AllReached, IssuesKept, ModulesListed, Visit, Consistent;
    VisitJustified(library, w, main, doc, call);
    VisitHops(library, w, main, doc, call);
  }

  lemma FailedMissing(library: Library, w: Walk, main: Document, key: Key)
    requires Justified(library, w, main) && key in w.failed
    ensures key !in library
  {
  }

  lemma FailedMore(library: Library, w: Walk, main: Document, key: Key)
    requires Justified(library, w, main) && key !in library && key !in w.broken
    ensures Justified(library, w.(failed := w.failed + {key}), main)
  {
    hide FaultyDoc, Needed;
  }

  lemma SameReasons(library: Library, w: Walk, w': Walk, main: Document)
    requires Justified(library, w, main) && w' == w.(callers := w'.callers, queue := w'.queue)
    ensures Justified(library, w', main)
  {
    hide FaultyDoc, Needed;
  }

  lemma FoundJustified(library: Library, w: Walk, main: Document, doc: Pending, call: ModuleCall)
    requires Justified(library, w, main) && DocOf(w, main, doc) && call.key in library && call.key !in w.resolvedTo
    requires call.key !in w.broken
    requires CallsVersion(library, w.self, doc.doc, library[call.key])
    ensures Justified(library, Found(library, w, doc, call), main)
  {
    NeededNext(library, w, main, doc, library[call.key]);
    FoundFields(library, w, doc, call);
    FoundLeaves(library, w, doc, call);
    hide Found, MoreHops, HopsTo, HopFrom, PlanOf, FaultyDoc, Needed, CallsVersion;
  }

  lemma FoundLeaves(library: Library, w: Walk, doc: Pending, call: ModuleCall)
    requires call.key in library
    ensures var w' := Found(library, w, doc, call); w'.failed == w.failed && w'.self == w.self && w'.broken == w.broken
  {
    hide HopsTo, HopFrom;
  }

  lemma DocStays(w: Walk, w': Walk, main: Document, doc: Pending)
    requires DocOf(w, main, doc) && Grows(w, w')
    ensures DocOf(w', main, doc)
  {
  }

  // Once every document recorded is read, whatever is needed is recorded.
  lemma {:induction false} NeededRecorded(library: Library, w: Walk, main: Document, path: seq<Version>)
    requires KeysResolved(library, w) && ReadSettled(w, w.refs.Keys) && AllSettled(w, Pending(main, None))
    requires Justified(library, w, main) && Leading(library, w.self, main, path)
    ensures var v := path[|path|-1]; v.id in w.refs && w.refs[v.id] == v
  {
    hide IsCall, HasIssue, Reported, FaultyDoc, Needed;
    var v := path[|path|-1];
    var doc := if |path| == 1 then Pending(main, None) else Pending(path[|path|-2].doc, Some(path[|path|-2].id));
    if |path| > 1 {
      NeededRecorded(library, w, main, path[..|path|-1]);
      assert AllSettled(w, doc);
    }
    assert CallsVersion(library, w.self, doc.doc, v);
    var call :| IsCall(doc.doc, call) && !Faulty(library, w.self, call) && library[call.key] == v;
    assert Settled(w, doc, call);
  }

  // A call met that breaks the lookup.
  lemma BreaksHere(library: Library, w: Walk, main: Document, doc: Pending, call: ModuleCall)
    requires Explains(library, w, main) && DocOf(w, main, doc) && IsCall(doc.doc, call)
             && Breaks(w.broken, w.self, call)
    ensures SomeBreak(library, w.broken, w.self, main)
  {
    hide IsCall, FaultyDoc, FaultyAt, HopsTrue, Needed;
    assert BreakingDoc(w.broken, w.self, doc.doc);
    hide BreakingDoc;
    if doc.version.Some? {
      assert Needed(library, w.self, main, w.refs[doc.version.value]);
    }
  }

  lemma Unbroken(library: Library, w: Walk, main: Document, doc: Pending)
    requires Justified(library, w, main) && AllSettled(w, doc)
    ensures !BreakingDoc(w.broken, w.self, doc.doc)
  {
    hide IsCall, HasIssue, Reported, FaultyDoc, Needed;
    forall call | IsCall(doc.doc, call)
      ensures !Breaks(w.broken, w.self, call)
    {
      assert Settled(w, doc, call);
    }
  }

  /** Where the worklist gets to its end, the versions recorded are those needed, and no lookup needed fails. */
  lemma AllRecorded(library: Library, w: Walk, main: Document)
    requires KeysResolved(library, w) && ReadSettled(w, w.refs.Keys) && AllSettled(w, Pending(main, None))
    requires Justified(library, w, main)
    ensures forall v :: Needed(library, w.self, main, v) <==> v.id in w.refs && w.refs[v.id] == v
    ensures !SomeBreak(library, w.broken, w.self, main)
  {
    hide AllSettled, FaultyDoc, CallsVersion, BreakingDoc;
    Unbroken(library, w, main, Pending(main, None));
    forall v | Needed(library, w.self, main, v)
      ensures v.id in w.refs && w.refs[v.id] == v && !BreakingDoc(w.broken, w.self, v.doc)
    {
      var path :| Leading(library, w.self, main, path) && path[|path|-1] == v;
      NeededRecorded(library, w, main, path);
      Unbroken(library, w, main, Pending(v.doc, Some(v.id)));
    }
  }

  lemma NotFaulty(library: Library, w: Walk, doc: Pending)
    requires KeysResolved(library, w) && AllSettled(w, doc) && !Reported(w, doc)
    ensures !FaultyDoc(library, w.self, doc.doc)
  {
    hide IsCall, IssueAt;
    forall n
      ensures !IssueAt(doc.doc, n)
    {
      if IssueAt(doc.doc, n) {
        ReportedSome(w, doc, n);
      }
    }
    forall call | IsCall(doc.doc, call)
      ensures !Faulty(library, w.self, call)
    {
      assert Settled(w, doc, call);
    }
  }

  // c is where some version with issues is reached from.
  ghost predicate Blamed(w: Walk, ids: seq<Node>, c: Node) {
    exists id :: id in ids && RootCall(w.callers, id, c)
  }

  class ModuleWalk {
    const library: Library
    // Keys whose lookup fails for another reason than that the module is missing.
    const broken: set<Key>
    const self: Option<ProcessId>
    var modules: seq<Resolved>
    var issues: seq<Node>
    var refs: map<Node, Version>
    var resolvedTo: map<Key, Version>
    var failed: set<Key>
    var queue: seq<Pending>
    var callers: Callers
    var docIssues: map<Node, seq<Node>>
    var issueOrder: seq<Node>

    ghost function Snap(): Walk
      reads this
    {
      Walk(self, broken, modules, issues, refs, resolvedTo, failed, queue, callers, docIssues, issueOrder)
    }

    constructor (library: Library, broken: set<Key>, self: Option<ProcessId>, main: Document)
      ensures this.library == library && this.broken == broken && this.self == self
              && Snap() == Begin(self, broken, main)
    {
      this.library, this.broken, this.self := library, broken, self;
      modules, issues, refs, resolvedTo, failed := [], [], map[], map[], {};
      queue, callers, docIssues, issueOrder := [Pending(main, None)], map[], map[], [];
    }

    method ReportIssue(doc: Pending, at: Node)
      modifies this
      ensures Snap() == Report(old(Snap()), doc, at)
    {
      if doc.version.None? {
        issues := issues + [at];
        return;
      }
      var id := doc.version.value;
      if id in docIssues {
        docIssues := docIssues[id := docIssues[id] + [at]];
      } else {
        issueOrder := issueOrder + [id];
        docIssues := docIssues[id := [at]];
      }
    }

    method ReachVersion(doc: Pending, call: ModuleCall, v: Version)
      modifies this
      ensures Snap() == Reach(old(Snap()), doc, call, v)
    {
      var h := HopFrom(doc, call, v);
      if h !in HopsTo(callers, v.id) {
        callers := callers[v.id := HopsTo(callers, v.id) + [h]];
      }
    }

    method VisitCall(doc: Pending, call: ModuleCall) returns (err: bool)
      modifies this
      ensures err <==> Breaks(broken, self, call) && call.key !in old(failed) && call.key !in old(resolvedTo)
      ensures Snap() == if err then old(Snap()) else Visit(library, old(Snap()), doc, call)
    {
      err := false;
      if CallsSelf(self, call) || call.key in failed {
        ReportIssue(doc, call.call);
        return;
      }
      if call.key in resolvedTo {
        ReachVersion(doc, call, resolvedTo[call.key]);
        return;
      }
      if call.key in broken {
        return true;
      }
      if call.key !in library {
        failed := failed + {call.key};
        ReportIssue(doc, call.call);
        return;
      }
      var v := library[call.key];
      resolvedTo := resolvedTo[call.key := v];
      ReachVersion(doc, call, v);
      modules := modules + [Resolved(call.key, PlanOf(v), v.doc)];
      if v.id !in refs {
        refs := refs[v.id := v];
        queue := queue + [Pending(v.doc, Some(v.id))];
      }
    }

    ghost predicate Walking(read: set<Node>)
      reads this
    {
      && WalkOk(library, Snap()) && QueueOk(Snap(), read) && read <= refs.Keys && refs.Keys <= Ids(library)
    }

    // One document: its own issues, then each of its library calls.
    method ReadDocument(doc: Pending, ghost main: Document, ghost read: set<Node>, ghost w0: Walk) returns (err: bool)
      requires Consistent(library) && Walking(read) && Reads(Snap(), doc) && Grows(w0, Snap())
      requires Explains(library, Snap(), main) && DocOf(Snap(), main, doc)
      modifies this
      ensures err ==> SomeBreak(library, broken, self, main)
      ensures !err ==> Walking(read) && Grows(w0, Snap()) && AllSettled(Snap(), doc) && Explains(library, Snap(), main)
      ensures !err ==> (forall p :: p in queue && p !in old(queue) ==> p.version.Some?) && Longer(old(Snap()), Snap())
    {
      hide WalkOk, QueueOk, Grows, Reads, IsCall, Report, Visit, Settled, Consistent, Ids, ReportedAt, Explains, DocOf,
           IssueAt, SomeBreak;
      var calls, bad := ModuleCalls(doc.doc);
      for i := 0 to |bad|
        invariant Walking(read) && Reads(Snap(), doc) && Grows(w0, Snap())
        invariant forall j :: 0 <= j < i ==> ReportedAt(Snap(), doc, bad[j])
        invariant Explains(library, Snap(), main) && DocOf(Snap(), main, doc)
        invariant queue == old(queue) && refs == old(refs)
      {
        ghost var w := Snap();
        assert IssueAt(doc.doc, bad[i]);
        ReportKeeps(library, w, doc, bad[i]);
        ReportGoesOn(library, w0, w, doc, bad[i], bad[..i], read);
        assert FaultyAt(library, w.self, doc.doc, bad[i]);
        ReportExplains(library, w, main, doc, bad[i]);
        DocStays(w, Report(w, doc, bad[i]), main, doc);
        ReportIssue(doc, bad[i]);
      }
      for i := 0 to |calls|
        invariant Walking(read) && Reads(Snap(), doc) && Grows(w0, Snap())
        invariant forall j :: 0 <= j < |bad| ==> ReportedAt(Snap(), doc, bad[j])
        invariant Explains(library, Snap(), main) && DocOf(Snap(), main, doc)
        invariant forall j :: 0 <= j < i ==> Settled(Snap(), doc, calls[j])
        invariant (forall p :: p in queue && p !in old(queue) ==> p.version.Some?) && Longer(old(Snap()), Snap())
      {
        ghost var w := Snap();
        VisitKeeps(library, w, doc, calls[i], read);
        VisitGoesOn(library, w0, w, doc, calls[i], calls[..i], bad);
        assert IsCall(doc.doc, calls[i]);
        err := VisitCall(doc, calls[i]);
        if err {
          BreaksHere(library, w, main, doc, calls[i]);
          return;
        }
        VisitExplains(library, w, main, doc, calls[i]);
        DocStays(w, Snap(), main, doc);
      }
      err := false;
      assert forall call :: IsCall(doc.doc, call) ==> Settled(Snap(), doc, call);
      assert forall n :: IssueAt(doc.doc, n) ==> n in bad;
    }

    /** Every issue of a module document is put at each call of the main document that reaches it. */
    method AttributeModuleIssues()
      requires IssuesKept(Snap())
      modifies this`issues
      ensures forall c :: c in issues <==> c in old(issues) || Blamed(old(Snap()), issueOrder, c)
    {
      hide RootCall, HopsTo, Report, Visit, Walking, Blamed, Has;
      ghost var w := Snap();
      var out := issues;
      var search := new RouteSearch(callers);
      NoneBlamed(w);
      for i := 0 to |issueOrder|
        invariant search.callers == callers && MemoFull(search.callers, search.memo) && search.visiting == {}
        invariant forall c :: c in out <==> c in w.issues || Blamed(w, issueOrder[..i], c)
      {
        var id := issueOrder[i];
        assert id in docIssues && docIssues[id] != [];
        var found := RoutesTo(search, id);
        hide MemoFull;
        BlamedMore(w, i, found);
        out := AddAtCalls(out, found, |docIssues[id]|);
      }
      assert issueOrder[..|issueOrder|] == issueOrder;
      issues := out;
    }
  }

  // Each of several issues is added at the root call of each route.
  method AddAtCalls(issues: seq<Node>, found: seq<Route>, times: nat) returns (out: seq<Node>)
    requires times > 0
    ensures forall c :: c in out <==> c in issues || Has(found, c)
  {
    out := issues;
    for j := 0 to |found|
      invariant forall c :: c in out <==> c in issues || Has(found[..j], c)
    {
      ghost var before := out;
      for k := 0 to times
        invariant forall c :: c in out <==> c in before || (k > 0 && c == found[j].call)
      {
        out := out + [found[j].call];
      }
      hide Has;
      HasSnoc(found[..j], found[j]);
      assert found[..j + 1] == found[..j] + [found[j]];
    }
    assert found[..|found|] == found;
  }

  lemma HasSnoc(found: seq<Route>, r: Route)
    ensures forall c :: Has(found + [r], c) <==> Has(found, c) || c == r.call
  {
    forall c
      ensures Has(found + [r], c) <==> Has(found, c) || c == r.call
    {
      if o :| o in found && o.call == c {
        assert o in found + [r];
      }
      assert r in found + [r];
    }
  }

  lemma ReportGoesOn(library: Library, w0: Walk, w: Walk, doc: Pending, at: Node, before: seq<Node>, read: set<Node>)
    requires Grows(w0, w) && QueueOk(w, read) && Reads(w, doc) && forall n :: n in before ==> ReportedAt(w, doc, n)
    requires var w' := Report(w, doc, at); Grows(w, w') && w'.refs == w.refs && w'.queue == w.queue
    ensures var w' := Report(w, doc, at);
            && Grows(w0, w') && QueueOk(w', read) && Reads(w', doc)
            && forall n :: n in before ==> ReportedAt(w', doc, n)
  {
    hide Report, MoreHops;
    GrowsTrans(w0, w, Report(w, doc, at));
    SameQueue(w, Report(w, doc, at), read);
  }

  lemma VisitGoesOn(library: Library, w0: Walk, w: Walk, doc: Pending, call: ModuleCall,
                    before: seq<ModuleCall>, bad: seq<Node>)
    requires Grows(w0, w) && forall c :: c in before ==> Settled(w, doc, c)
    requires forall n :: n in bad ==> ReportedAt(w, doc, n)
    requires w.refs.Keys <= Ids(library)
    requires var w' := Visit(library, w, doc, call); Grows(w, w')
    ensures var w' := Visit(library, w, doc, call);
            && Grows(w0, w') && (forall c :: c in before ==> Settled(w', doc, c))
            && (forall n :: n in bad ==> ReportedAt(w', doc, n))
            && w'.refs.Keys <= Ids(library) && Longer(w, w')
            && forall p :: p in w'.queue && p !in w.queue ==> p.version.Some?
  {
    var w' := Visit(library, w, doc, call);
    GrowsTrans(w0, w, w');
    VisitFields(library, w, doc, call);
    hide Visit;
  }

  lemma ReportFields(w: Walk, doc: Pending, at: Node)
    ensures Report(w, doc, at).refs == w.refs && Report(w, doc, at).queue == w.queue
  {
  }

  lemma VisitFields(library: Library, w: Walk, doc: Pending, call: ModuleCall)
    requires w.refs.Keys <= Ids(library)
    ensures var w' := Visit(library, w, doc, call);
            w'.refs.Keys <= Ids(library) && Longer(w, w') && forall p :: p in w'.queue && p !in w.queue ==>
                p.version.Some?
  {
    hide HopsTo, HopFrom, Report, Reach, Found, MoreHops;
    ReportFields(w, doc, call.call);
    ReportFields(w.(failed := w.failed + {call.key}), doc, call.call);
    if call.key in w.resolvedTo {
      ReachHops(w, doc, call, w.resolvedTo[call.key]);
    } else if call.key in library {
      FoundFields(library, w, doc, call);
    }
  }

  lemma NoneBlamed(w: Walk)
    ensures forall c :: !Blamed(w, w.issueOrder[..0], c)
  {
    hide RootCall;
  }

  lemma BlamedMore(w: Walk, i: nat, found: seq<Route>)
    requires i < |w.issueOrder| && Full(w.callers, w.issueOrder[i], found)
    ensures forall c :: Blamed(w, w.issueOrder[..i + 1], c) <==> Blamed(w, w.issueOrder[..i], c) || Has(found, c)
  {
    hide RootCall, Full, Blamed, Has;
    forall c
      ensures Blamed(w, w.issueOrder[..i + 1], c) <==> Blamed(w, w.issueOrder[..i], c) || Has(found, c)
    {
      BlamedOne(w, i, found, c);
    }
  }

  lemma BlamedOne(w: Walk, i: nat, found: seq<Route>, c: Node)
    requires i < |w.issueOrder| && Full(w.callers, w.issueOrder[i], found)
    ensures Blamed(w, w.issueOrder[..i + 1], c) <==> Blamed(w, w.issueOrder[..i], c) || Has(found, c)
  {
    hide RootCall, Full, Has;
    var id := w.issueOrder[i];
    assert w.issueOrder[..i + 1] == w.issueOrder[..i] + [id];
    assert id in w.issueOrder[..i + 1];
    FullIsExact(w.callers, id, found, c);
    if k :| k in w.issueOrder[..i] && RootCall(w.callers, k, c) {
      assert k in w.issueOrder[..i + 1];
    }
    if k :| k in w.issueOrder[..i + 1] && RootCall(w.callers, k, c) {
      assert k == id || k in w.issueOrder[..i];
    }
  }

  // ----- the result -----

  datatype Outcome =
    | LookupFailed
    | Refused(issues: seq<Node>)
    | Complete(modules: seq<Resolved>, refs: map<Node, Version>)

  ghost predicate Listed(modules: seq<Resolved>, key: Key) {
    exists m :: m in modules && m.key == key
  }

  /** Every library call of the document has a module entry. */
  ghost predicate AllListed(doc: Document, modules: seq<Resolved>) {
    forall call :: IsCall(doc, call) ==> Listed(modules, call.key)
  }

  // Module entries and recorded versions are the same plans and documents.
  ghost predicate EntriesMatch(modules: seq<Resolved>, refs: map<Node, Version>) {
    forall m :: m in modules ==> exists id :: id in refs && m.plan == PlanOf(refs[id]) && m.doc == refs[id].doc
  }

  // Each entry is the version its key resolves to.
  ghost predicate EntriesTrue(library: Library, modules: seq<Resolved>) {
    forall m :: m in modules ==> m.key in library && m == Resolved(m.key, PlanOf(library[m.key]), library[m.key].doc)
  }

  lemma NothingReported(library: Library, w: Walk, main: Document, read: set<Node>)
    requires WalkOk(library, w) && ReadSettled(w, read) && read == w.refs.Keys && AllSettled(w, Pending(main, None))
    requires w.issues == [] && w.issueOrder == []
    ensures AllListed(main, w.modules) && EntriesMatch(w.modules, w.refs) && EntriesTrue(library, w.modules)
    ensures forall id :: id in w.refs ==> w.refs[id].id == id && AllListed(w.refs[id].doc, w.modules)
  {
    hide AllReached, IsCall, HasIssue, PlanOf;
    forall call | IsCall(main, call)
      ensures Listed(w.modules, call.key)
    {
      assert Settled(w, Pending(main, None), call);
    }
    forall id, call | id in w.refs && IsCall(w.refs[id].doc, call)
      ensures Listed(w.modules, call.key)
    {
      assert AllSettled(w, Pending(w.refs[id].doc, Some(id)));
      assert Settled(w, Pending(w.refs[id].doc, Some(id)), call);
    }
  }

  // ----- which calls are reported -----

  // A call of the main document at c reaches v, itself or through other versions.
  ghost predicate LeadsTo(library: Library, self: Option<ProcessId>, main: Document, path: seq<Version>, c: Node,
                          v: Version) {
    && Leading(library, self, main, path) && path[|path|-1] == v
    && exists call :: CallsAt(library, self, main, call, path[0]) && call.call == c
  }

  /**
   * What is reported at c: an issue of the main document, a faulty call of it, or a
   * call that leads to a version whose document has an issue or a faulty call.
   */
  ghost predicate Reportable(library: Library, self: Option<ProcessId>, main: Document, c: Node) {
    || FaultyAt(library, self, main, c)
    || exists path, v :: LeadsTo(library, self, main, path, c, v) && FaultyDoc(library, self, v.doc)
  }

  lemma LeadsOn(library: Library, self: Option<ProcessId>, main: Document, path: seq<Version>, c: Node, u: Version,
                v: Version)
    requires LeadsTo(library, self, main, path, c, u) && CallsVersion(library, self, u.doc, v)
    ensures LeadsTo(library, self, main, path + [v], c, v)
  {
    hide CallsVersion, CallsAt;
  }

  // A route of hops is a way through versions.
  lemma {:induction false} RouteLeads(library: Library, w: Walk, main: Document, id: Node, r: Route)
    returns (path: seq<Version>)
    requires HopsTrue(library, w, main) && Chain(w.callers, id, r, {})
    ensures id in w.refs && LeadsTo(library, w.self, main, path, r.call, w.refs[id])
    decreases |r.path|
  {
    hide Chain, HopsTo, Faulty, IsCall;
    var h := ChainLast(w.callers, id, r, {});
    assert HopTrue(library, w, main, id, h);
    match h
    case FromRoot(c, _) =>
      var call :| CallsAt(library, w.self, main, call, w.refs[id]) && call.call == c;
      path := [w.refs[id]];
      assert CallsVersion(library, w.self, main, path[0]);
    case FromModule(parent, _) =>
      var call :| CallsAt(library, w.self, w.refs[parent].doc, call, w.refs[id]);
      var before := RouteLeads(library, w, main, parent, Route(r.call, r.path[..|r.path|-1]));
      assert CallsVersion(library, w.self, w.refs[parent].doc, w.refs[id]);
      LeadsOn(library, w.self, main, before, r.call, w.refs[parent], w.refs[id]);
      path := before + [w.refs[id]];
  }

  // A way through versions is a route of hops, once every document is read.
  lemma {:induction false} WayIsRoute(library: Library, w: Walk, main: Document, path: seq<Version>, c: Node)
    returns (r: Route)
    requires KeysResolved(library, w) && ReadSettled(w, w.refs.Keys) && AllSettled(w, Pending(main, None))
    requires Justified(library, w, main) && path != [] && LeadsTo(library, w.self, main, path, c, path[|path|-1])
    ensures r.call == c && Chain(w.callers, path[|path|-1].id, r, {})
    decreases |path|
  {
    hide Chain, HopsTo, IsCall, ReadSettled, AllSettled;
    var v := path[|path|-1];
    if |path| == 1 {
      var call :| CallsAt(library, w.self, main, call, v) && call.call == c;
      var h := HopNoted(library, w, main, Pending(main, None), call, v);
      ChainByRoot(w.callers, v.id, h, {});
      r := Route(h.call, [h.via]);
    } else {
      var init, u := path[..|path|-1], path[|path|-2];
      assert init[|init|-1] == u;
      NeededRecorded(library, w, main, init);
      assert ReadSettled(w, w.refs.Keys) && u.id in w.refs;
      var before := WayIsRoute(library, w, main, init, c);
      assert CallsVersion(library, w.self, u.doc, v);
      var call :| IsCall(u.doc, call) && !Faulty(library, w.self, call) && library[call.key] == v;
      VersionSettled(w, u.id);
      var h := HopNoted(library, w, main, Pending(u.doc, Some(u.id)), call, v);
      ChainByModule(w.callers, v.id, h, before, {});
      r := Route(before.call, before.path + [h.via]);
    }
  }

  lemma VersionSettled(w: Walk, id: Node)
    requires ReadSettled(w, w.refs.Keys) && id in w.refs
    ensures AllSettled(w, Pending(w.refs[id].doc, Some(id)))
  {
    hide AllSettled;
  }

  lemma HopNoted(library: Library, w: Walk, main: Document, doc: Pending, call: ModuleCall, v: Version)
    returns (h: Hop)
    requires KeysResolved(library, w) && AllSettled(w, doc) && Justified(library, w, main)
    requires CallsAt(library, w.self, doc.doc, call, v)
    ensures h == HopFrom(doc, call, v) && h in HopsTo(w.callers, v.id)
  {
    hide HopsTo, IsCall, IssueAt, FaultyAt, FaultyDoc, Needed;
    assert Settled(w, doc, call);
    h := HopFrom(doc, call, v);
  }

  /** The issues at the end stand exactly where something is reportable. */
  lemma ReportsExactly(library: Library, w: Walk, main: Document, issues: seq<Node>, c: Node)
    requires WalkOk(library, w) && ReadSettled(w, w.refs.Keys) && AllSettled(w, Pending(main, None))
    requires Explains(library, w, main) && Gives(w, issues)
    ensures c in issues <==> Reportable(library, w.self, main, c)
  {
    hide KeysResolved, AllReached, ModulesListed, ReadSettled, AllSettled, HopsTrue, Justified, FaultyDoc, FaultyAt,
         Chain;
    if c in w.issues {
      IssueFaulty(library, w, main, c);
    } else if Blamed(w, w.issueOrder, c) {
      var id :| id in w.issueOrder && RootCall(w.callers, id, c);
      var r: Route :| r.call == c && Chain(w.callers, id, r, {});
      var path := RouteLeads(library, w, main, id, r);
      DocIssueFaulty(library, w, main, id);
    }
    if FaultyAt(library, w.self, main, c) {
      FaultyIssue(library, w, main, c);
    }
    if path, v :| LeadsTo(library, w.self, main, path, c, v) && FaultyDoc(library, w.self, v.doc) {
      var r := WayIsRoute(library, w, main, path, c);
      assert RootCall(w.callers, v.id, c);
      NeededRecorded(library, w, main, path);
      VersionSettled(w, v.id);
      if v.id !in w.docIssues {
        NotFaulty(library, w, Pending(v.doc, Some(v.id)));
      }
      assert Blamed(w, w.issueOrder, c);
    }
  }

  lemma IssueFaulty(library: Library, w: Walk, main: Document, c: Node)
    requires Justified(library, w, main) && c in w.issues
    ensures FaultyAt(library, w.self, main, c)
  {
    hide FaultyAt, FaultyDoc, Needed;
  }

  lemma DocIssueFaulty(library: Library, w: Walk, main: Document, id: Node)
    requires Justified(library, w, main) && IssuesKept(w) && id in w.issueOrder
    ensures id in w.refs && FaultyDoc(library, w.self, w.refs[id].doc)
  {
    hide FaultyAt, FaultyDoc, Needed;
    assert id in w.docIssues;
  }

  lemma FaultyIssue(library: Library, w: Walk, main: Document, c: Node)
    requires KeysResolved(library, w) && AllSettled(w, Pending(main, None)) && FaultyAt(library, w.self, main, c)
    ensures c in w.issues
  {
    hide IssueAt, IsCall;
    if !IssueAt(main, c) {
      var call :| IsCall(main, call) && Faulty(library, w.self, call) && call.call == c;
      assert Settled(w, Pending(main, None), call);
    } else {
      assert ReportedAt(w, Pending(main, None), c);
    }
  }

  // The issues at the end: of the main document, and at the calls that lead to versions with issues.
  ghost predicate Gives(w: Walk, issues: seq<Node>) {
    forall c :: c in issues <==> c in w.issues || Blamed(w, w.issueOrder, c)
  }

  /** There is an issue at the end if and only if something needed is faulty. */
  lemma Explained(library: Library, w: Walk, main: Document, issues: seq<Node>)
    requires WalkOk(library, w) && ReadSettled(w, w.refs.Keys) && AllSettled(w, Pending(main, None))
    requires Justified(library, w, main) && Gives(w, issues)
    ensures issues != [] <==> SomeFault(library, w.self, main)
  {
    hide AllReached, ModulesListed, AllSettled, FaultyDoc, Needed, RootCall, Gives;
    if issues == [] {
      NoIssues(library, w, main, issues);
      NotFaulty(library, w, Pending(main, None));
      AllRecorded(library, w, main);
      forall v | Needed(library, w.self, main, v)
        ensures !FaultyDoc(library, w.self, v.doc)
      {
        NotFaulty(library, w, Pending(v.doc, Some(v.id)));
      }
    } else {
      SomeIssue(w, issues);
      if w.issues != [] {
        FaultyThere(library, w, main);
      } else {
        var id := w.issueOrder[0];
        assert id in w.docIssues;
        assert Needed(library, w.self, main, w.refs[id]);
      }
    }
  }

  lemma FaultyThere(library: Library, w: Walk, main: Document)
    requires Justified(library, w, main) && w.issues != []
    ensures FaultyDoc(library, w.self, main)
  {
    hide Needed, IssueAt, IsCall, Faulty;
    assert FaultyAt(library, w.self, main, w.issues[0]);
  }

  lemma NoIssues(library: Library, w: Walk, main: Document, issues: seq<Node>)
    requires WalkOk(library, w) && Gives(w, issues) && issues == []
    ensures w.issues == [] && w.issueOrder == []
  {
    hide KeysResolved, ModulesListed, Blamed, AllReached, IssuesKept;
    Unblamed(w, issues);
  }

  lemma SomeIssue(w: Walk, issues: seq<Node>)
    requires Gives(w, issues) && issues != []
    ensures w.issues != [] || w.issueOrder != []
  {
    hide RootCall;
    assert issues[0] in issues;
  }

  lemma IssuesBlame(w: Walk)
    requires AllReached(w) && IssuesKept(w) && w.issueOrder != []
    ensures exists c :: Blamed(w, w.issueOrder, c)
  {
    hide RootCall;
    var id := w.issueOrder[0];
    assert id in w.docIssues;
    assert Reached(w, id);
    var c :| RootCall(w.callers, id, c);
    assert Blamed(w, w.issueOrder, c);
  }

  lemma Unblamed(w: Walk, issues: seq<Node>)
    requires AllReached(w) && IssuesKept(w) && issues == []
    requires forall c :: c in issues <==> c in w.issues || Blamed(w, w.issueOrder, c)
    ensures w.issues == [] && w.issueOrder == []
  {
    hide Blamed, IssuesKept, AllReached;
    if w.issueOrder != [] {
      IssuesBlame(w);
    }
    HasFirst(w.issues);
  }

  lemma HasFirst(s: seq<Node>)
    ensures s == [] || s[0] in s
  {
  }

  lemma Begins(library: Library, self: Option<ProcessId>, broken: set<Key>, main: Document)
    ensures WalkOk(library, Begin(self, broken, main)) && QueueOk(Begin(self, broken, main), {})
            && ReadSettled(Begin(self, broken, main), {})
            && MainOk(Begin(self, broken, main), main, false)
    ensures Explains(library, Begin(self, broken, main), main)
  {
    hide FaultyDoc, Needed;
  }

  lemma NextMain(w: Walk, main: Document, read: bool)
    requires MainOk(w, main, read) && w.queue != []
    ensures if read then w.queue[0].version.Some? else w.queue == [Pending(main, None)]
  {
    hide AllSettled;
    assert w.queue[0] in w.queue;
  }

  lemma NextDoc(library: Library, w: Walk, main: Document, w': Walk, doc: Pending)
    requires Explains(library, w, main) && w' == w.(queue := w'.queue)
    requires doc.version.Some? ==> doc.version.value in w.refs && doc.doc == w.refs[doc.version.value].doc
    requires doc.version.None? ==> doc == Pending(main, None)
    ensures Explains(library, w', main) && DocOf(w', main, doc)
  {
    SameReasons(library, w, w', main);
    hide Justified, HopsTrue;
    SameHopsTrue(library, w, w', main);
  }

  lemma AfterRead(main: Document, w0: Walk, w1: Walk, w: Walk, doc: Pending, read: set<Node>, mainRead: bool)
    requires w0.queue != [] && doc == w0.queue[0] && w1 == w0.(queue := w0.queue[1..])
    requires MainOk(w0, main, mainRead) && ReadSettled(w0, read)
    requires Grows(w0, w) && AllSettled(w, doc) && Longer(w1, w)
    requires forall p :: p in w.queue && p !in w1.queue ==> p.version.Some?
    requires doc.version.Some? ==> doc.version.value in w0.refs && doc.doc == w0.refs[doc.version.value].doc
    ensures ReadSettled(w, if doc.version.None? then read else read + {doc.version.value}) && MainOk(w, main, true)
  {
    hide AllSettled;
    ReadStays(w0, w, read);
    NextMain(w0, main, mainRead);
    if mainRead {
      SettledStays(w0, w, Pending(main, None));
    }
    forall p | p in w.queue
      ensures p.version.Some?
    {
      if p in w1.queue {
        assert p in w0.queue;
      }
    }
  }

  lemma Another(some: set<Node>, more: set<Node>)
    requires some <= more
    ensures some == more || exists x :: x in more && x !in some
  {
  }

  lemma QueueDone(w: Walk, main: Document, read: set<Node>, mainRead: bool)
    requires w.queue == [] && MainOk(w, main, mainRead) && QueueOk(w, read) && read <= w.refs.Keys
    ensures AllSettled(w, Pending(main, None)) && read == w.refs.Keys
  {
    hide AllSettled;
  }

  lemma WalkParts(library: Library, w: Walk)
    requires WalkOk(library, w)
    ensures AllReached(w) && IssuesKept(w) && KeysResolved(library, w)
  {
    hide AllReached, IssuesKept, KeysResolved, ModulesListed;
  }

  // What the worklist knows between two documents.
  ghost predicate Between(library: Library, w: Walk, main: Document, read: set<Node>, mainRead: bool) {
    && WalkOk(library, w) && QueueOk(w, read) && read <= w.refs.Keys && w.refs.Keys <= Ids(library)
    && ReadSettled(w, read) && MainOk(w, main, mainRead) && Explains(library, w, main)
  }

  // The next document of the queue is read.
  method ReadNext(w: ModuleWalk, main: Document, ghost read: set<Node>, ghost mainRead: bool)
    returns (err: bool, ghost read': set<Node>)
    requires Consistent(w.library) && Between(w.library, w.Snap(), main, read, mainRead) && w.queue != []
    modifies w
    ensures err ==> SomeBreak(w.library, w.broken, w.self, main)
    ensures !err ==> Between(w.library, w.Snap(), main, read', true)
    ensures !err ==>
              || |Ids(w.library) - w.refs.Keys| < old(|Ids(w.library) - w.refs.Keys|)
              || (w.refs.Keys == old(w.refs.Keys) && |w.queue| < old(|w.queue|))
  {
    hide WalkOk, QueueOk, Grows, Reads, AllSettled, ReadSettled, Consistent, Ids, MainOk, Explains, DocOf, SomeBreak;
    ghost var w0 := w.Snap();
    var doc := w.queue[0];
    Dequeues(w.library, w0, read);
    NextMain(w0, main, mainRead);
    NextDoc(w.library, w0, main, w0.(queue := w0.queue[1..]), doc);
    read' := if doc.version.None? then read else read + {doc.version.value};
    w.queue := w.queue[1..];
    ghost var w1 := w.Snap();
    err := w.ReadDocument(doc, main, read', w0);
    if err {
      return;
    }
    AfterRead(main, w0, w1, w.Snap(), doc, read, mainRead);
    if w0.refs.Keys != w.refs.Keys {
      Another(w0.refs.Keys, w.refs.Keys);
      ghost var x :| x in w.refs && x !in w0.refs;
      FewerLeft(Ids(w.library), w0.refs.Keys, w.refs.Keys, x);
    }
  }

  lemma EndsKept(library: Library, w: Walk, main: Document, read: set<Node>, mainRead: bool)
    requires Between(library, w, main, read, mainRead)
    ensures IssuesKept(w)
  {
    hide QueueOk, Ids, ReadSettled, MainOk, Explains, WalkOk, IssuesKept;
    WalkParts(library, w);
  }

  /** What the end of the worklist says: nothing it needed broke, and what it gives as issues and modules. */
  lemma Concludes(library: Library, w: Walk, main: Document, read: set<Node>, mainRead: bool, issues: seq<Node>)
    requires Between(library, w, main, read, mainRead) && w.queue == [] && Gives(w, issues)
    ensures !SomeBreak(library, w.broken, w.self, main) && (issues != [] <==> SomeFault(library, w.self, main))
    ensures forall c :: c in issues <==> Reportable(library, w.self, main, c)
    ensures forall v :: Needed(library, w.self, main, v) <==> v.id in w.refs && w.refs[v.id] == v
    ensures issues == [] ==>
              && AllListed(main, w.modules) && EntriesMatch(w.modules, w.refs) && EntriesTrue(library, w.modules)
              && forall id :: id in w.refs ==> w.refs[id].id == id && AllListed(w.refs[id].doc, w.modules)
  {
    hide QueueOk, Ids, ReadSettled, MainOk, Justified, WalkOk, AllSettled, SomeBreak, SomeFault, Needed, AllListed,
         EntriesMatch, EntriesTrue, Gives, KeysResolved, AllReached, IssuesKept, Reportable, HopsTrue;
    QueueDone(w, main, read, mainRead);
    WalkParts(library, w);
    AllRecorded(library, w, main);
    Explained(library, w, main, issues);
    forall c
      ensures c in issues <==> Reportable(library, w.self, main, c)
    {
      ReportsExactly(library, w, main, issues, c);
    }
    if issues == [] {
      NoIssues(library, w, main, issues);
      NothingReported(library, w, main, read);
    }
  }

  /**
   * The worklist ends on every finite library. It fails exactly where a call of
   * the main document or of a version needed has a lookup that fails. Else it
   * refuses exactly the documents that need something faulty; where it does not,
   * it has recorded exactly the versions needed, and every library call of the
   * main document and of each of them has its module.
   */
  method Resolve(library: Library, broken: set<Key>, self: Option<ProcessId>, main: Document) returns (r: Outcome)
    requires Consistent(library)
    ensures r.LookupFailed? <==> SomeBreak(library, broken, self, main)
    ensures !r.LookupFailed? ==> (r.Refused? <==> SomeFault(library, self, main))
    ensures r.Refused? ==> forall c :: c in r.issues <==> Reportable(library, self, main, c)
    ensures r.Complete? ==>
              && (forall v :: Needed(library, self, main, v) <==> v.id in r.refs && r.refs[v.id] == v)
              && AllListed(main, r.modules) && EntriesMatch(r.modules, r.refs) && EntriesTrue(library, r.modules)
              && forall id :: id in r.refs ==> r.refs[id].id == id && AllListed(r.refs[id].doc, r.modules)
  {
    hide WalkOk, QueueOk, AllSettled, ReadSettled, Consistent, Ids, AllListed, EntriesMatch, EntriesTrue, Blamed,
         MainOk, Justified, SomeFault, SomeBreak, Needed, Reportable;
    var w := new ModuleWalk(library, broken, self, main);
    Begins(library, self, broken, main);
    ghost var read: set<Node> := {};
    ghost var mainRead := false;
    while |w.queue| > 0
      invariant w.library == library && w.self == self && w.broken == broken
      invariant Between(library, w.Snap(), main, read, mainRead)
      decreases |Ids(library) - w.refs.Keys|, |w.queue|
    {
      hide Between;
      var err;
      err, read := ReadNext(w, main, read, mainRead);
      if err {
        return LookupFailed;
      }
      mainRead := true;
    }
    ghost var end := w.Snap();
    EndsKept(library, end, main, read, mainRead);
    w.AttributeModuleIssues();
    var issues := w.issues;
    assert Gives(end, issues);
    Concludes(library, end, main, read, mainRead, issues);
    if |issues| > 0 {
      return Refused(issues);
    }
    return Complete(w.modules, w.refs);
  }
}
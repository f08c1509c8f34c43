/**
 * Bundling the modules a document calls into one file (bundle.go): each plan
 * once, and every library call, in the main processes and in the modules,
 * renamed to a process of the bundle.
 */
module Bundle {
  import opened Wrappers
  import opened Graphs
  import opened Modules
  import opened Resolution

  type Plans = map<Key, ProcessId>

  function Points(ca: CallActivity, plan: ProcessId): CallActivity {
    ca.(called := Some(CalledElement(Named(plan), Latest)))
  }

  // A library call with a plan is pointed at the plan.
  function PointCall(ca: CallActivity, caller: ProcessId, home: Document, plans: Plans): CallActivity {
    match ReadCall(ca, caller, home)
    case Library(call) => if call.key in plans then Points(ca, plans[call.key]) else ca
    case _ => ca
  }

  // A call of the module's own process follows its new name.
  function PointSelf(ca: CallActivity, own: ProcessId, plan: ProcessId): CallActivity {
    if ca.called.Some? && ca.called.value.target == Named(own) then Points(ca, plan) else ca
  }

  method PointLibraryCalls(p: Process, home: Document, plans: Plans) returns (calls: seq<CallActivity>)
    ensures |calls| == |p.calls|
    ensures forall j :: 0 <= j < |calls| ==> calls[j] == PointCall(p.calls[j], p.id, home, plans)
  {
    calls := p.calls;
    for j := 0 to |calls|
      invariant |calls| == |p.calls|
      invariant forall k :: 0 <= k < |calls| ==>
                calls[k] == if k < j then PointCall(p.calls[k], p.id, home, plans) else p.calls[k]
    {
      calls := calls[j := PointCall(calls[j], p.id, home, plans)];
    }
  }

  method PointSelfCalls(calls0: seq<CallActivity>, own: ProcessId, plan: ProcessId) returns (calls: seq<CallActivity>)
    ensures |calls| == |calls0|
    ensures forall j :: 0 <= j < |calls| ==> calls[j] == PointSelf(calls0[j], own, plan)
  {
    calls := calls0;
    for j := 0 to |calls|
      invariant |calls| == |calls0|
      invariant forall k :: 0 <= k < |calls| ==>
                calls[k] == if k < j then PointSelf(calls0[k], own, plan) else calls0[k]
    {
      calls := calls[j := PointSelf(calls[j], own, plan)];
    }
  }

  // p' is p of home with its library calls pointed at their plans.
  ghost predicate IsPointed(p: Process, home: Document, plans: Plans, p': Process) {
    && |p'.calls| == |p.calls| && p'.id == p.id && !p'.library
    && forall j :: 0 <= j < |p.calls| ==> p'.calls[j] == PointCall(p.calls[j], p.id, home, plans)
  }

  // p' is the one process of m's document, renamed to m's plan.
  ghost predicate IsModule(m: Resolved, plans: Plans, p': Process) {
    && |m.doc.processes| == 1 && p'.id == m.plan && p'.library
    && (var p := m.doc.processes[0];
        |p'.calls| == |p.calls|
        && forall j :: 0 <= j < |p.calls| ==>
             p'.calls[j] == PointSelf(PointCall(p.calls[j], p.id, m.doc, plans), p.id, m.plan))
  }

  function PlansOf(modules: seq<Resolved>): Plans {
    if modules == [] then map[]
    else PlansOf(modules[..|modules|-1])[modules[|modules|-1].key := modules[|modules|-1].plan]
  }

  lemma {:induction false} PlansListed(modules: seq<Resolved>, key: Key)
    ensures Listed(modules, key) <==> key in PlansOf(modules)
    ensures key in PlansOf(modules) ==> exists m :: m in modules && m.key == key && m.plan == PlansOf(modules)[key]
  {
    if modules != [] {
      var init, last := modules[..|modules|-1], modules[|modules|-1];
      PlansListed(init, key);
      assert modules == init + [last];
      assert forall m :: m in modules <==> m in init || m == last;
      if key in PlansOf(modules) && key != last.key {
        var m :| m in init && m.key == key && m.plan == PlansOf(init)[key];
        assert m in modules;
      }
    }
  }

  ghost predicate FromModule(modules: seq<Resolved>, plans: Plans, p: Process) {
    exists m :: m in modules && IsModule(m, plans, p)
  }

  ghost predicate DistinctIds(ps: seq<Process>) {
    forall i, j :: 0 <= i < j < |ps| ==> ps[i].id != ps[j].id
  }

  ghost predicate AllPointed(main: Document, plans: Plans, pointed: seq<Process>) {
    && |pointed| == |main.processes|
    && forall i :: 0 <= i < |pointed| ==> IsPointed(main.processes[i], main, plans, pointed[i])
  }

  ghost predicate AllModules(modules: seq<Resolved>, plans: Plans, added: seq<Process>) {
    forall p :: p in added ==> FromModule(modules, plans, p)
  }

  ghost predicate AllAdded(modules: seq<Resolved>, added: seq<Process>) {
    forall m :: m in modules ==> HasProcess(added, m.plan)
  }

  /** The bundle: the main processes pointed at their plans, then one process for each plan. */
  ghost predicate Bundled(main: Document, modules: seq<Resolved>, pointed: seq<Process>, added: seq<Process>) {
    && AllPointed(main, PlansOf(modules), pointed) && AllModules(modules, PlansOf(modules), added)
    && AllAdded(modules, added) && DistinctIds(added)
  }

  method PointMain(main: Document, plans: Plans) returns (out: seq<Process>)
    ensures AllPointed(main, plans, out)
  {
    hide PointCall;
    out := [];
    for i := 0 to |main.processes|
      invariant |out| == i
      invariant forall k :: 0 <= k < i ==> IsPointed(main.processes[k], main, plans, out[k])
    {
      var calls := PointLibraryCalls(main.processes[i], main, plans);
      out := out + [main.processes[i].(calls := calls, library := false)];
    }
  }

  method BundleOne(m: Resolved, plans: Plans) returns (p: Process)
    requires |m.doc.processes| == 1
    ensures IsModule(m, plans, p)
  {
    hide PointCall, PointSelf;
    p := m.doc.processes[0];
    var calls := PointLibraryCalls(p, m.doc, plans);
    calls := PointSelfCalls(calls, p.id, m.plan);
    p := p.(calls := calls, id := m.plan, library := true);
  }

  lemma Appends(modules: seq<Resolved>, plans: Plans, added: seq<Process>, m: Resolved, p: Process)
    requires AllModules(modules, plans, added) && DistinctIds(added) && m in modules && IsModule(m, plans, p)
             && !HasProcess(added, m.plan)
    ensures AllModules(modules, plans, added + [p]) && DistinctIds(added + [p])
    ensures forall id :: HasProcess(added + [p], id) <==> HasProcess(added, id) || id == m.plan
  {
    assert p.id == m.plan && FromModule(modules, plans, p);
    hide IsModule, FromModule;
    forall i | 0 <= i < |added|
      ensures added[i].id != p.id
    {
      assert added[i] in added;
    }
    forall id
      ensures HasProcess(added + [p], id) <==> HasProcess(added, id) || id == m.plan
    {
      if q :| q in added && q.id == id {
        assert q in added + [p];
      }
      assert p in added + [p];
    }
  }

  // The plans bundled so far are those of the modules seen.
  ghost predicate Upto(modules: seq<Resolved>, i: nat, bundled: set<ProcessId>, added: seq<Process>)
    requires i <= |modules|
  {
    && (forall id :: id in bundled <==> HasProcess(added, id))
    && (forall k :: 0 <= k < i ==> modules[k].plan in bundled)
  }

  method AddModules(modules: seq<Resolved>, plans: Plans) returns (ok: bool, added: seq<Process>)
    ensures !ok ==> exists m :: m in modules && |m.doc.processes| != 1
    ensures ok ==> AllModules(modules, plans, added) && AllAdded(modules, added) && DistinctIds(added)
  {
    hide AllModules, DistinctIds, IsModule, HasProcess;
    added := [];
    var bundled: set<ProcessId> := {};
    NothingAdded(modules, plans);
    for i := 0 to |modules|
      invariant AllModules(modules, plans, added) && DistinctIds(added) && Upto(modules, i, bundled, added)
    {
      var m := modules[i];
      if m.plan in bundled {
        continue;
      }
      if |m.doc.processes| != 1 {
        return false, [];
      }
      var p := BundleOne(m, plans);
      Appends(modules, plans, added, m, p);
      added := added + [p];
      bundled := bundled + {m.plan};
    }
    ok := true;
    forall m | m in modules
      ensures HasProcess(added, m.plan)
    {
      var k :| 0 <= k < |modules| && modules[k] == m;
    }
  }

  lemma NothingAdded(modules: seq<Resolved>, plans: Plans)
    ensures AllModules(modules, plans, []) && DistinctIds([]) && Upto(modules, 0, {}, [])
  {
  }

  /** Bundling fails only for a module whose document does not hold exactly one process. */
  method BundleModules(main: Document, modules: seq<Resolved>) returns (ok: bool, pointed: seq<Process>,
                       added: seq<Process>)
    ensures !ok ==> exists m :: m in modules && |m.doc.processes| != 1
    ensures ok ==> Bundled(main, modules, pointed, added)
  {
    hide AllModules, DistinctIds, AllAdded, AllPointed;
    var plans: Plans := map[];
    for i := 0 to |modules|
      invariant plans == PlansOf(modules[..i])
    {
      assert modules[..i + 1][..i] == modules[..i];
      plans := plans[modules[i].key := modules[i].plan];
    }
    assert modules[..|modules|] == modules;
    pointed := PointMain(main, plans);
    ok, added := AddModules(modules, plans);
  }

  // ca, as the bundle holds it, names a process of the bundle.
  ghost predicate Resolves(out: seq<Process>, ca: CallActivity) {
    ca.called.Some? && ca.called.value.target.Named? && HasProcess(out, ca.called.value.target.id)
  }

  // The name a plan has among the calls of a process that becomes own in the bundle.
  function NameOf(plan: ProcessId, caller: ProcessId, own: Option<ProcessId>): ProcessId {
    if own.Some? && plan == caller then own.value else plan
  }

  /**
   * What the bundle holds for a call ca of a process: where it asks the library
   * for a version it names that version's plan, which is in the bundle; else it is
   * left as it is, but that in a module, which becomes own, a call of the
   * process's own id follows the new name.
   */
  ghost predicate Renamed(library: Library, home: Document, caller: ProcessId, own: Option<ProcessId>, ca: CallActivity,
                          ca': CallActivity, added: seq<Process>) {
    && ca'.id == ca.id
    && (forall key :: AsksFor(home, caller, ca, key) ==>
          && key in library && HasProcess(added, PlanOf(library[key]))
          && ca'.called == Some(CalledElement(Named(NameOf(PlanOf(library[key]), caller, own)), Latest)))
    && ((forall key :: !AsksFor(home, caller, ca, key)) ==>
          ca'.called ==
            if own.Some? && ca.called.Some? && ca.called.value.target == Named(caller) then
              Some(CalledElement(Named(own.value), Latest))
            else ca.called)
  }

  lemma PlanInBundle(library: Library, modules: seq<Resolved>, added: seq<Process>, key: Key)
    requires AllAdded(modules, added) && Listed(modules, key) && EntriesTrue(library, modules)
    ensures key in library && key in PlansOf(modules) && PlansOf(modules)[key] == PlanOf(library[key])
    ensures HasProcess(added, PlanOf(library[key]))
  {
    PlansListed(modules, key);
    hide PlansOf, HasProcess, PlanOf;
    var m :| m in modules && m.key == key && m.plan == PlansOf(modules)[key];
  }

  // A call of a listed document, pointed, names the plan of the version it asks for.
  lemma PointedRight(library: Library, modules: seq<Resolved>, added: seq<Process>, p: Process, j: nat, home: Document)
    requires AllAdded(modules, added) && AllListed(home, modules) && EntriesTrue(library, modules)
    requires p in home.processes && j < |p.calls|
    ensures Renamed(library, home, p.id, None, p.calls[j], PointCall(p.calls[j], p.id, home, PlansOf(modules)), added)
  {
    hide ReadCall, AllAdded, PlansOf, HasProcess, AsksFor, IsUnresolvable, EntriesTrue, PlanOf;
    var ca := p.calls[j];
    ReadsRight(home, p.id, ca);
    if ReadCall(ca, p.id, home).Library? {
      var call := ReadCall(ca, p.id, home).call;
      assert Makes(home, p, ca) && AsksFor(home, p.id, ca, call.key);
      assert IsCall(home, call);
      PlanInBundle(library, modules, added, call.key);
      forall key | AsksFor(home, p.id, ca, key)
        ensures key == call.key
      {
        assert ReadCall(ca, p.id, home) == Library(ModuleCall(ca.id, key));
      }
    } else {
      forall key
        ensures !AsksFor(home, p.id, ca, key)
      {
        assert ReadCall(ca, p.id, home) != Library(ModuleCall(ca.id, key));
      }
    }
  }

  // Following the process's own new name then changes no more than it should.
  lemma SelfRight(library: Library, home: Document, caller: ProcessId, plan: ProcessId, ca: CallActivity,
                  ca': CallActivity, added: seq<Process>)
    requires Renamed(library, home, caller, None, ca, ca', added)
    ensures Renamed(library, home, caller, Some(plan), ca, PointSelf(ca', caller, plan), added)
  {
    hide AsksFor, HasProcess, PlanOf;
  }

  // q' is q of home as the bundle holds it.
  ghost predicate CallsFound(library: Library, q: Process, home: Document, own: Option<ProcessId>, q': Process,
                             added: seq<Process>) {
    && |q'.calls| == |q.calls|
    && forall j :: 0 <= j < |q.calls| ==> Renamed(library, home, q.id, own, q.calls[j], q'.calls[j], added)
  }

  ghost predicate MainFound(library: Library, main: Document, pointed: seq<Process>, added: seq<Process>) {
    && |pointed| == |main.processes|
    && forall i :: 0 <= i < |pointed| ==>
        && pointed[i].id == main.processes[i].id
        && CallsFound(library, main.processes[i], main, None, pointed[i], added)
  }

  // p is the one process of the document, under its plan's name.
  ghost predicate ModuleFound(library: Library, plan: ProcessId, doc: Document, p: Process, added: seq<Process>) {
    p.id == plan && |doc.processes| == 1 && CallsFound(library, doc.processes[0], doc, Some(plan), p, added)
  }

  /**
   * Where resolution reported nothing, every call of a main process that asks for
   * a version names, in the bundle, the plan of that version, and every other one
   * is as it was.
   */
  lemma MainCallsResolve(library: Library, main: Document, modules: seq<Resolved>, pointed: seq<Process>,
                         added: seq<Process>)
    requires Bundled(main, modules, pointed, added) && AllListed(main, modules) && EntriesTrue(library, modules)
    ensures MainFound(library, main, pointed, added)
  {
    hide AllModules, DistinctIds, AllAdded, PointCall, Renamed, AllListed, EntriesTrue;
    forall i | 0 <= i < |pointed|
      ensures pointed[i].id == main.processes[i].id
      ensures CallsFound(library, main.processes[i], main, None, pointed[i], added)
    {
      var q := main.processes[i];
      assert IsPointed(q, main, PlansOf(modules), pointed[i]);
      forall j | 0 <= j < |q.calls|
        ensures Renamed(library, main, q.id, None, q.calls[j], pointed[i].calls[j], added)
      {
        PointedRight(library, modules, added, q, j, main);
      }
    }
  }

  /** And so does every such call of every module process, under its new name. */
  lemma ModuleCallsResolve(library: Library, main: Document, modules: seq<Resolved>, refs: map<Node, Version>,
                           pointed: seq<Process>, added: seq<Process>, p: Process)
    returns (m: Resolved)
    requires Bundled(main, modules, pointed, added) && EntriesMatch(modules, refs) && EntriesTrue(library, modules)
    requires p in added && forall id :: id in refs ==> AllListed(refs[id].doc, modules)
    ensures m in modules && ModuleFound(library, m.plan, m.doc, p, added)
  {
    hide AllPointed, DistinctIds, PointCall, PointSelf, PlansOf, PlanOf, AllListed, Renamed, EntriesTrue, AllAdded;
    assert FromModule(modules, PlansOf(modules), p);
    m :| m in modules && IsModule(m, PlansOf(modules), p);
    var q := m.doc.processes[0];
    forall j | 0 <= j < |q.calls|
      ensures Renamed(library, m.doc, q.id, Some(m.plan), q.calls[j], p.calls[j], added)
    {
      PointedRight(library, modules, added, q, j, m.doc);
      SelfRight(library, m.doc, q.id, m.plan, q.calls[j], PointCall(q.calls[j], q.id, m.doc, PlansOf(modules)), added);
    }
  }

  /**
   * Resolving and then bundling: each plan is there once, each is that of a version
   * reached, and every call that asks for a version, of a main process or of a
   * module, names that version's plan.
   */
  lemma BundleComplete(library: Library, main: Document, modules: seq<Resolved>, refs: map<Node, Version>,
                       pointed: seq<Process>, added: seq<Process>)
    requires AllListed(main, modules) && EntriesMatch(modules, refs) && EntriesTrue(library, modules)
    requires forall id :: id in refs ==> AllListed(refs[id].doc, modules)
    requires Bundled(main, modules, pointed, added)
    ensures DistinctIds(added) && MainFound(library, main, pointed, added)
    ensures forall p :: p in added ==>
              exists id :: id in refs && ModuleFound(library, PlanOf(refs[id]), refs[id].doc, p, added)
  {
    hide AllListed, PlanOf, AllAdded, AllPointed, AllModules, MainFound, ModuleFound, EntriesTrue;
    MainCallsResolve(library, main, modules, pointed, added);
    forall p | p in added
      ensures exists id :: id in refs && ModuleFound(library, PlanOf(refs[id]), refs[id].doc, p, added)
    {
      var m := ModuleCallsResolve(library, main, modules, refs, pointed, added, p);
      var id :| id in refs && m.plan == PlanOf(refs[id]) && m.doc == refs[id].doc;
    }
  }

  // A pin is kept by the library: the row of a numbered key is that number's.
  ghost predicate KeepsPins(library: Library) {
    forall key :: key in library && key.version > 0 ==> library[key].number == key.version
  }

  /**
   * Where the library keeps pins, a call pinned to version n of a process that
   * is not one of its own document's names plan n in the bundle, no other.
   */
  lemma PinnedNames(library: Library, main: Document, pointed: seq<Process>, added: seq<Process>, i: nat, j: nat,
                    id: ProcessId, n: nat)
    requires KeepsPins(library) && MainFound(library, main, pointed, added)
    requires i < |main.processes| && j < |main.processes[i].calls| && n >= 1 && !IsLocal(main, id)
    requires main.processes[i].calls[j].called == Some(CalledElement(Named(id), VersionTag(Some(n))))
    ensures j < |pointed[i].calls|
    ensures exists name ::
              && pointed[i].calls[j].called == Some(CalledElement(Named(PlanName(name, n)), Latest))
              && HasProcess(added, PlanName(name, n))
  {
    hide HasProcess, IsLocal;
    var q := main.processes[i];
    assert CallsFound(library, q, main, None, pointed[i], added);
    assert AsksFor(main, q.id, q.calls[j], Key(id, n));
    assert Renamed(library, main, q.id, None, q.calls[j], pointed[i].calls[j], added);
  }

  // ----- resolving and bundling -----

  datatype Result =
    | LookupFails
    | Refuses(issues: seq<Node>)
    | NotBundled
    | Bundles(pointed: seq<Process>, added: seq<Process>)

  // A version the main document needs has its plan among the modules.
  lemma NeededListed(library: Library, self: Option<ProcessId>, main: Document, modules: seq<Resolved>,
                     refs: map<Node, Version>, v: Version)
    requires Needed(library, self, main, v) && AllListed(main, modules) && EntriesTrue(library, modules)
    requires RefsNeeded(library, self, main, refs) && forall id :: id in refs ==> AllListed(refs[id].doc, modules)
    ensures exists m :: m in modules && m.plan == PlanOf(v) && m.doc == v.doc
  {
    hide IsCall, Faulty, PlanOf;
    var path :| Leading(library, self, main, path) && path[|path|-1] == v;
    var doc := main;
    if |path| > 1 {
      var u := path[|path|-2];
      assert Leading(library, self, main, path[..|path|-1]);
      assert Needed(library, self, main, u);
      doc := u.doc;
    }
    assert CallsVersion(library, self, doc, v) && AllListed(doc, modules);
    hide Leading, Needed;
    var call :| IsCall(doc, call) && !Faulty(library, self, call) && library[call.key] == v;
    assert Listed(modules, call.key);
  }

  // refs are the versions needed, by their ids.
  ghost predicate RefsNeeded(library: Library, self: Option<ProcessId>, main: Document, refs: map<Node, Version>) {
    && (forall v :: Needed(library, self, main, v) <==> v.id in refs && refs[v.id] == v)
    && (forall id :: id in refs ==> refs[id].id == id)
  }

  lemma RefNeeded(library: Library, self: Option<ProcessId>, main: Document, refs: map<Node, Version>, id: Node)
    requires RefsNeeded(library, self, main, refs) && id in refs
    ensures Needed(library, self, main, refs[id])
  {
    hide Needed;
  }

  lemma UnbundledNeeded(library: Library, self: Option<ProcessId>, main: Document, modules: seq<Resolved>,
                        refs: map<Node, Version>)
    requires RefsNeeded(library, self, main, refs) && EntriesMatch(modules, refs)
    requires exists m :: m in modules && |m.doc.processes| != 1
    ensures exists v :: Needed(library, self, main, v) && |v.doc.processes| != 1
  {
    hide Needed, PlanOf;
    var m :| m in modules && |m.doc.processes| != 1;
    var id :| id in refs && m.plan == PlanOf(refs[id]) && m.doc == refs[id].doc;
    RefNeeded(library, self, main, refs, id);
  }

  lemma NeededBundled(library: Library, self: Option<ProcessId>, main: Document, modules: seq<Resolved>,
                      refs: map<Node, Version>, pointed: seq<Process>, added: seq<Process>)
    requires RefsNeeded(library, self, main, refs) && AllListed(main, modules) && EntriesTrue(library, modules)
    requires forall id :: id in refs ==> AllListed(refs[id].doc, modules)
    requires Bundled(main, modules, pointed, added)
    ensures forall v :: Needed(library, self, main, v) ==> HasProcess(added, PlanOf(v))
  {
    hide Needed, PlanOf, AllListed, EntriesTrue, AllPointed, AllModules, DistinctIds, HasProcess;
    forall v | Needed(library, self, main, v)
      ensures HasProcess(added, PlanOf(v))
    {
      NeededListed(library, self, main, modules, refs, v);
      var m :| m in modules && m.plan == PlanOf(v) && m.doc == v.doc;
    }
  }

  /**
   * Resolving a document and bundling what it needs. Where it succeeds, the plans
   * added are those of the versions the document needs, each once, and every call
   * that asks for a version, in the main processes and inside every module, names
   * the plan of the version the library has for what it asks.
   */
  method ResolveAndBundle(library: Library, broken: set<Key>, self: Option<ProcessId>, main: Document)
    returns (r: Result)
    requires Consistent(library)
    ensures r.LookupFails? <==> SomeBreak(library, broken, self, main)
    ensures r.Refuses? <==> !SomeBreak(library, broken, self, main) && SomeFault(library, self, main)
    ensures r.Refuses? ==> forall c :: c in r.issues <==> Reportable(library, self, main, c)
    ensures r.NotBundled? ==> exists v :: Needed(library, self, main, v) && |v.doc.processes| != 1
    ensures r.Bundles? ==>
              && DistinctIds(r.added) && MainFound(library, main, r.pointed, r.added)
              && (forall p :: p in r.added ==>
                    exists v :: Needed(library, self, main, v) && ModuleFound(library, PlanOf(v), v.doc, p, r.added))
              && forall v :: Needed(library, self, main, v) ==> HasProcess(r.added, PlanOf(v))
  {
    hide SomeBreak, SomeFault, Needed, AllListed, EntriesMatch, EntriesTrue, Bundled, MainFound, ModuleFound, PlanOf,
         Consistent, DistinctIds, HasProcess, Reportable;
    var o := Resolve(library, broken, self, main);
    match o {
      case LookupFailed => return LookupFails;
      case Refused(issues) => return Refuses(issues);
      case Complete(modules, refs) =>
        var ok, pointed, added := BundleModules(main, modules);
        if !ok {
          UnbundledNeeded(library, self, main, modules, refs);
          return NotBundled;
        }
        BundleComplete(library, main, modules, refs, pointed, added);
        NeededBundled(library, self, main, modules, refs, pointed, added);
        r := Bundles(pointed, added);
        forall p | p in added
          ensures exists v :: Needed(library, self, main, v) && ModuleFound(library, PlanOf(v), v.doc, p, added)
        {
          var id :| id in refs && ModuleFound(library, PlanOf(refs[id]), refs[id].doc, p, added);
          RefNeeded(library, self, main, refs, id);
        }
    }
  }

  // ----- names in the bundle -----

  /** The document the bundle is: its participants are the main document's alone. */
  function BundleDocument(main: Document, pointed: seq<Process>, added: seq<Process>): Document {
    main.(processes := pointed + added)
  }

  lemma {:induction false} ByIdAppend(a: seq<Process>, b: seq<Process>, id: ProcessId)
    ensures ById(a + b, id) == if ById(a, id).Some? then ById(a, id) else ById(b, id)
  {
    if a == [] {
      assert a + b == b;
    } else {
      ByIdAppend(a[1..], b, id);
      assert (a + b)[1..] == a[1..] + b;
    }
  }

  lemma AddedById(added: seq<Process>, p: Process)
    requires DistinctIds(added) && p in added
    ensures ById(added, p.id) == Some(p)
  {
    ByIdFinds(added, p.id);
    hide HasProcess;
    assert HasProcess(added, p.id) by { Holds(added, p); }
    var q := ById(added, p.id).value;
    var i :| 0 <= i < |added| && added[i] == p;
    var j :| 0 <= j < |added| && added[j] == q;
  }

  lemma Holds(ps: seq<Process>, p: Process)
    requires p in ps
    ensures HasProcess(ps, p.id)
  {
  }

  lemma PointedAreMain(main: Document, plans: Plans, pointed: seq<Process>, q: Process)
    requires AllPointed(main, plans, pointed) && q in pointed
    ensures !q.library
  {
    hide PointCall;
    var i :| 0 <= i < |pointed| && pointed[i] == q;
    assert IsPointed(main.processes[i], main, plans, pointed[i]);
  }

  /** A module's process is what its plan's name finds in the bundle if and only if no main process has that name. */
  lemma PlanFinds(main: Document, modules: seq<Resolved>, pointed: seq<Process>, added: seq<Process>, p: Process)
    requires Bundled(main, modules, pointed, added) && p in added
    ensures Find(BundleDocument(main, pointed, added), p.id) == Some(p) <==> !HasProcess(pointed, p.id)
  {
    hide AllPointed, AllAdded, PlansOf, PointCall, PointSelf, HasProcess, ById;
    assert FromModule(modules, PlansOf(modules), p);
    assert p.library;
    AddedById(added, p);
    ByIdAppend(pointed, added, p.id);
    ByIdFinds(pointed, p.id);
    if HasProcess(pointed, p.id) {
      PointedAreMain(main, PlansOf(modules), pointed, ById(pointed, p.id).value);
    }
  }

  /** A library call, pointed at its plan, finds the module's process unless a main process has the plan's name. */
  lemma PointedFinds(main: Document, modules: seq<Resolved>, pointed: seq<Process>, added: seq<Process>,
      ca: CallActivity)
    requires Bundled(main, modules, pointed, added) && Resolves(added, ca)
    ensures var found := Find(BundleDocument(main, pointed, added), ca.called.value.target.id);
            if HasProcess(pointed, ca.called.value.target.id) then found.Some? && found.value in pointed
            else found.Some? && found.value in added && found.value.id == ca.called.value.target.id
  {
    hide AllPointed, AllAdded, AllModules, PlansOf, ById, DistinctIds;
    var id := ca.called.value.target.id;
    ByIdAppend(pointed, added, id);
    ByIdFinds(pointed, id);
    ByIdFinds(added, id);
  }

  // A call that names a process of its own document without being a library call.
  predicate CallsLocally(ca: CallActivity, caller: ProcessId, home: Document) {
    ca.called.Some? && ca.called.value.target.Named? && ReadCall(ca, caller, home) == NotLibrary
  }

  /**
   * In a module, which is one process, such a call is a call of that process
   * itself: a cycle for the call-graph check.
   */
  lemma LocalCallIsOwn(doc: Document, q: Process, ca: CallActivity)
    requires doc.processes == [q] && CallsLocally(ca, q.id, doc)
    ensures Find(doc, ca.called.value.target.id) == Some(q)
  {
    hide IsLocal, Find;
    LocalIsFound(doc, ca.called.value.target.id);
  }

  /**
   * Such a call, by the process's id or by a participant's, finds the module's
   * process in the bundle if and only if no main process has the plan's name
   * and it names the process by its id, or by the very plan, or by a participant
   * of the main document that runs the plan and no process of the bundle hides.
   * It finds nothing if and only if it is by a participant's id that the bundle does not know.
   */
  lemma OwnCallFinds(main: Document, modules: seq<Resolved>, pointed: seq<Process>, added: seq<Process>, m: Resolved,
                     p: Process, j: nat)
    requires Bundled(main, modules, pointed, added) && m in modules && p in added && IsModule(m, PlansOf(modules), p)
    requires j < |p.calls| && CallsLocally(m.doc.processes[0].calls[j], m.doc.processes[0].id, m.doc)
    ensures p.calls[j].called.Some? && p.calls[j].called.value.target.Named?
    ensures var q := m.doc.processes[0];
            var id, home := q.calls[j].called.value.target.id, BundleDocument(main, pointed, added);
            var found := Find(home, p.calls[j].called.value.target.id);
            && (found == Some(p) <==>
                  && !HasProcess(pointed, m.plan)
                  && (id == q.id || id == m.plan
                      || (!HasProcess(home.processes, id)
                          && ByParticipant(main.participants, home.processes, id) == Some(p))))
            && (found.None? <==> id != q.id && !IsLocal(home, id))
  {
    hide AllPointed, AllAdded, AllModules, PlansOf, DistinctIds, HasProcess, ById, ByParticipant, IsLocal;
    var q := m.doc.processes[0];
    var id, home := q.calls[j].called.value.target.id, BundleDocument(main, pointed, added);
    PlanFinds(main, modules, pointed, added, p);
    LocalIsFound(home, m.plan);
    LocalIsFound(home, id);
    ByIdFinds(home.processes, id);
    AddedById(added, p);
    ByIdAppend(pointed, added, m.plan);
    ByIdFinds(pointed, m.plan);
    ByParticipantFinds(main.participants, home.processes, id);
  }
}

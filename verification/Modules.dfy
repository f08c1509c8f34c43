/** Which calls of a document are calls of library modules (modules.go). */
module Modules {
  import opened Wrappers
  import opened Graphs

  // The id of a process: one its author wrote, or the name a bundled module version gets.
  datatype ProcessId = Authored(name: nat) | PlanName(name: nat, number: nat)

  // What a call names: a process, or an expression.
  datatype Target = Named(id: ProcessId) | Formula

  datatype Binding = Latest | Deployment | VersionTag(number: Option<nat>) | OtherBinding

  datatype CalledElement = CalledElement(target: Target, binding: Binding)

  datatype CallActivity = CallActivity(id: Node, called: Option<CalledElement>)

  datatype Process = Process(id: ProcessId, calls: seq<CallActivity>, library: bool)

  datatype Participant = Participant(id: ProcessId, process: ProcessId)

  // rejected: where the document holds elements a module caller may not use (scanRejected).
  datatype Document = Document(processes: seq<Process>, participants: seq<Participant>, rejected: seq<Node>)

  // Version 0 asks for the latest.
  datatype Key = Key(process: ProcessId, version: nat)

  datatype ModuleCall = ModuleCall(call: Node, key: Key)

  datatype Reading = NotLibrary | Unresolvable | Library(call: ModuleCall)

  predicate HasProcess(processes: seq<Process>, id: ProcessId) {
    exists p | p in processes :: p.id == id
  }

  // FindProcessByID: by its id, or by the id of a participant that runs it.
  predicate IsLocal(doc: Document, id: ProcessId) {
    HasProcess(doc.processes, id)
    || exists q | q in doc.participants :: q.id == id && HasProcess(doc.processes, q.process)
  }

  function ById(processes: seq<Process>, id: ProcessId): Option<Process> {
    if processes == [] then None else if processes[0].id == id then Some(processes[0]) else ById(processes[1..], id)
  }

  // The process of the first participant with the id whose process is there.
  function ByParticipant(participants: seq<Participant>, processes: seq<Process>, id: ProcessId): Option<Process> {
    if participants == [] then None
    else if participants[0].id == id && ById(processes, participants[0].process).Some? then
      ById(processes, participants[0].process)
    else ByParticipant(participants[1..], processes, id)
  }

  /** FindProcessByID: the process an id names in a document. */
  function Find(doc: Document, id: ProcessId): Option<Process> {
    if ById(doc.processes, id).Some? then ById(doc.processes, id)
    else ByParticipant(doc.participants, doc.processes, id)
  }

  lemma {:induction false} ByIdFinds(processes: seq<Process>, id: ProcessId)
    ensures ById(processes, id).Some? <==> HasProcess(processes, id)
    ensures ById(processes, id).Some? ==> ById(processes, id).value in processes && ById(processes, id).value.id == id
  {
    if processes != [] {
      ByIdFinds(processes[1..], id);
      assert forall p :: p in processes <==> p == processes[0] || p in processes[1..];
    }
  }

  lemma {:induction false} ByParticipantFinds(participants: seq<Participant>, processes: seq<Process>, id: ProcessId)
    ensures ByParticipant(participants, processes, id).Some? <==>
              exists q :: q in participants && q.id == id && HasProcess(processes, q.process)
    ensures ByParticipant(participants, processes, id).Some? ==>
              var p := ByParticipant(participants, processes, id).value;
              p in processes && ById(processes, p.id) == Some(p)
  {
    hide HasProcess;
    if participants != [] {
      ByParticipantFinds(participants[1..], processes, id);
      ByIdFinds(processes, participants[0].process);
      assert forall q :: q in participants <==> q == participants[0] || q in participants[1..];
    }
  }

  /** The calls taken as local are those that name a process of their document. */
  lemma LocalIsFound(doc: Document, id: ProcessId)
    ensures Find(doc, id).Some? <==> IsLocal(doc, id)
    ensures Find(doc, id).Some? ==> Find(doc, id).value in doc.processes
  {
    hide HasProcess;
    ByIdFinds(doc.processes, id);
    ByParticipantFinds(doc.participants, doc.processes, id);
  }

  function ReadCall(ca: CallActivity, caller: ProcessId, doc: Document): Reading {
    if ca.called.None? then NotLibrary
    else if ca.called.value.target.Formula? then Unresolvable
    else
      var id := ca.called.value.target.id;
      match ca.called.value.binding
      case Latest => if IsLocal(doc, id) then NotLibrary else Library(ModuleCall(ca.id, Key(id, 0)))
      case Deployment => if IsLocal(doc, id) then NotLibrary else Unresolvable
      case VersionTag(None) => Unresolvable
      case VersionTag(Some(n)) =>
        if n == 0 || (IsLocal(doc, id) && id != caller) then Unresolvable
        else Library(ModuleCall(ca.id, Key(id, n)))
      case OtherBinding => Unresolvable
  }

  // ca is a call the process makes.
  predicate Makes(doc: Document, p: Process, ca: CallActivity) {
    p in doc.processes && ca in p.calls
  }

  /**
   * The call asks the library for a version of the process it names: for the
   * latest, 0, if it says so and names no process of its own document; for the
   * number it is pinned to, from 1 on, unless another process there has the name.
   */
  ghost predicate AsksFor(doc: Document, caller: ProcessId, ca: CallActivity, key: Key) {
    && ca.called.Some? && ca.called.value.target == Named(key.process)
    && if key.version == 0 then ca.called.value.binding == Latest && !IsLocal(doc, key.process)
       else
         && ca.called.value.binding == VersionTag(Some(key.version))
         && (IsLocal(doc, key.process) ==> key.process == caller)
  }

  /**
   * The call names no process it could be resolved to: by an expression, by a
   * binding unknown, by one to its own file where the process is not, or by a pin
   * that is no version or meets another process of its own document.
   */
  predicate IsUnresolvable(doc: Document, caller: ProcessId, ca: CallActivity) {
    && ca.called.Some?
    && var called := ca.called.value;
       || called.target.Formula?
       || called.binding.OtherBinding?
       || (called.binding.Deployment? && !IsLocal(doc, called.target.id))
       || (called.binding.VersionTag? && (called.binding.number.None? || called.binding.number.value == 0))
       || (called.binding.VersionTag? && IsLocal(doc, called.target.id) && called.target.id != caller)
  }

  /** A call is read as the library call it is, or reported, or left to its own document. */
  lemma ReadsRight(doc: Document, caller: ProcessId, ca: CallActivity)
    ensures forall call :: ReadCall(ca, caller, doc) == Library(call) <==>
              call.call == ca.id && AsksFor(doc, caller, ca, call.key)
    ensures ReadCall(ca, caller, doc) == Unresolvable <==> IsUnresolvable(doc, caller, ca)
  {
    hide IsLocal;
  }

  // A library call of the document.
  ghost predicate IsCall(doc: Document, call: ModuleCall) {
    exists p, ca :: Makes(doc, p, ca) && ca.id == call.call && AsksFor(doc, p.id, ca, call.key)
  }

  ghost predicate UnresolvableAt(doc: Document, n: Node) {
    exists p, ca :: Makes(doc, p, ca) && IsUnresolvable(doc, p.id, ca) && ca.id == n
  }

  /** An unresolvable call is an issue where it stands; rejected elements are only in a document with library calls. */
  ghost predicate IssueAt(doc: Document, n: Node) {
    UnresolvableAt(doc, n) || (n in doc.rejected && exists call :: IsCall(doc, call))
  }

  method CallsOf(p: Process, doc: Document) returns (calls: seq<ModuleCall>, bad: seq<Node>)
    ensures forall call :: call in calls <==>
              exists ca :: ca in p.calls && ca.id == call.call && AsksFor(doc, p.id, ca, call.key)
    ensures forall n :: n in bad <==> exists ca :: ca in p.calls && IsUnresolvable(doc, p.id, ca) && ca.id == n
  {
    calls, bad := [], [];
    for i := 0 to |p.calls|
      invariant forall call :: call in calls <==>
                exists j :: 0 <= j < i && p.calls[j].id == call.call && AsksFor(doc, p.id, p.calls[j], call.key)
      invariant forall n :: n in bad <==>
                exists j :: 0 <= j < i && IsUnresolvable(doc, p.id, p.calls[j]) && p.calls[j].id == n
    {
      hide ReadCall, AsksFor, IsUnresolvable;
      ReadsRight(doc, p.id, p.calls[i]);
      match ReadCall(p.calls[i], p.id, doc) {
        case NotLibrary =>
        case Unresolvable => bad := bad + [p.calls[i].id];
        case Library(call) => calls := calls + [call];
      }
    }
  }

  // What the first processes of a document make.
  ghost predicate CallUpto(doc: Document, i: nat, call: ModuleCall)
    requires i <= |doc.processes|
  {
    exists j, ca :: 0 <= j < i && ca in doc.processes[j].calls && ca.id == call.call
        && AsksFor(doc, doc.processes[j].id, ca, call.key)
  }

  ghost predicate IssueUpto(doc: Document, i: nat, n: Node)
    requires i <= |doc.processes|
  {
    exists j, ca :: 0 <= j < i && ca in doc.processes[j].calls && IsUnresolvable(doc, doc.processes[j].id, ca)
        && ca.id == n
  }

  /** The library calls of a document, and the nodes it reports issues at. */
  method ModuleCalls(doc: Document) returns (calls: seq<ModuleCall>, bad: seq<Node>)
    ensures forall call :: call in calls <==> IsCall(doc, call)
    ensures forall n :: n in bad <==> IssueAt(doc, n)
    ensures forall n :: n in bad <==> UnresolvableAt(doc, n) || (n in doc.rejected && calls != [])
  {
    calls, bad := [], [];
    for i := 0 to |doc.processes|
      invariant forall call :: call in calls <==> CallUpto(doc, i, call)
      invariant forall n :: n in bad <==> IssueUpto(doc, i, n)
    {
      hide AsksFor, IsUnresolvable;
      var more, worse := CallsOf(doc.processes[i], doc);
      calls, bad := calls + more, bad + worse;
    }
    Gathered(doc);
    if |calls| > 0 {
      assert calls[0] in calls;
      bad := bad + doc.rejected;
    }
  }

  lemma Gathered(doc: Document)
    ensures forall call :: CallUpto(doc, |doc.processes|, call) <==> IsCall(doc, call)
    ensures forall n :: IssueUpto(doc, |doc.processes|, n) <==> UnresolvableAt(doc, n)
  {
    hide AsksFor, IsUnresolvable;
    forall call
      ensures CallUpto(doc, |doc.processes|, call) <==> IsCall(doc, call)
    {
      if CallUpto(doc, |doc.processes|, call) {
        var j, ca :| 0 <= j < |doc.processes| && ca in doc.processes[j].calls && ca.id == call.call
            && AsksFor(doc, doc.processes[j].id, ca, call.key);
        assert Makes(doc, doc.processes[j], ca);
      }
      if IsCall(doc, call) {
        var p, ca :| Makes(doc, p, ca) && ca.id == call.call && AsksFor(doc, p.id, ca, call.key);
        var j :| 0 <= j < |doc.processes| && doc.processes[j] == p;
      }
    }
    forall n
      ensures IssueUpto(doc, |doc.processes|, n) <==> UnresolvableAt(doc, n)
    {
      if IssueUpto(doc, |doc.processes|, n) {
        var j, ca :| 0 <= j < |doc.processes| && ca in doc.processes[j].calls
            && IsUnresolvable(doc, doc.processes[j].id, ca) && ca.id == n;
        assert Makes(doc, doc.processes[j], ca);
      }
      if UnresolvableAt(doc, n) {
        var p, ca :| Makes(doc, p, ca) && IsUnresolvable(doc, p.id, ca) && ca.id == n;
        var j :| 0 <= j < |doc.processes| && doc.processes[j] == p;
      }
    }
  }
}

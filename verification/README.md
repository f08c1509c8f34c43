# Workflow definition service: a verified model

The workflow definition service turns BPMN 2.0 diagrams into compiled plans. This
project models the parts of it whose correctness is not visible from any one
function, and proves what they are for:

- **The graph compiler.** A callback depth-first search, back-edge classification
  from several roots, Tarjan's components, immediate post-dominators by tree meet,
  a shared join index, and the recursive traversal that emits sequential, parallel
  and exclusive steps and cuts lanes into segments. The main result is that a plan
  runs exactly the words of tasks and calls along the forward paths of its graph
  (`PlanMeaning.CompilationPreservesPaths`). Every lower layer is used in it.
- **The validator.** Each structural pass is proved to report exactly what violates
  its condition, and acceptance is proved to imply facts about compilation
  (`Outcomes.AcceptedCompiles`, `Acceptance.OptionToComplete`).
- **Library modules.** The worklist over module versions, the memoised route search
  that stays exact on cyclic call graphs, the call-graph check, and bundling.
- **Three protocols**, as state machines over any number of requests: the
  compiled-plan cache against revocation, the idempotency reservation, and the
  version-fenced tenant purge.

## How it is built

| files | what they hold |
|---|---|
| Graphs, Bpmn, Definitions | paths, reachability, forward graphs; node kinds; a declared process and its graph |
| Dfs, BackEdges, ForwardWalk, PostDominators, Joins, Tarjan, Depth | the graph algorithms, as loops over mutable state, proved against definitions by paths |
| Languages, Plans | languages of words; plans, the department store, and what a plan runs |
| Traversal | what the traversal computes, as functions from state to state |
| CompileStates | the classes of `state.go` and `traverse.go`, whose methods end in the state those functions give |
| Segments, GatewaySteps, SegmentNames | what every traversal keeps of the store, the shape of gateway steps, rendered segment ids |
| SegmentReads | no two steps of a plan read the same segment |
| PathLanguage, PlanMeaning | what a graph means, and that its plan means the same |
| Ways, Failures, Rejoins, BoundaryTasks | where a traversal goes, what it fails for, when a boundary path comes back, and where boundary events lead |
| EarlyEnds, Spine, QuietEnds, LostWork | where a plan stops short of its graph, exactly, where it does not all the same, and a process whose plan does |
| Validation, Acceptance, Outcomes, SplitsAccepted | the passes, what acceptance implies, how accepted processes fare, and one with every kind of split |
| Routes, CallGraph, Modules, Resolution, Bundle | library modules |
| PlanCache, Idempotency, TenantPurge | the protocols |

Code that changes things step by step is modelled by methods over fields and loops;
each ends in the value of a specification function or in a property stated
outright, and lemmas about that function carry the results. A compilation state is
an object; its `Snap()` is the value the functions work on. Node ids are opaque
values, because only their equality matters; the virtual exit the source writes as
the empty string is `None`.

A word is a sequence of tasks and calls. What steps run is defined with a
continuation: a gateway step reads one onward branch, a branch that terminates ends
the run, a revert branch adds no word. What a graph runs is defined by explicit
paths of forward flows (`PathLanguage.PathLang`).

## Where the code and its promises part

- No structural pass refuses a forward flow into a start event, an error boundary
  event or a message boundary event without outgoing flow, and the handlers of these
  return at once (`PlanMeaning.Drops`): nothing after is compiled, and in the main flow
  of a process or a body the buffer before is never flushed. A plan means its graph
  where no such node is forward-reachable from the entry, or each stands inside a branch
  with no work between it and the branch's join (`Outcomes.AcceptedCompiles`).
  A state that comes to one loses nothing if and only if it holds no stage back and no
  task, call or working sub-process is ahead (`EarlyEnds.DropMeans`,
  `Spine.RunIntoDrop`), and so does a plan whose main flow comes to one
  (`Acceptance.AcceptedStopsShort`). `LostWork.PlanLosesTasks` is an accepted process
  that loses a task on either side of the event.
- The shared index and the search below one node agree on reaching an end event
  exactly for nodes the walk met and for nodes that are no end events
  (`Joins.SharedEndIffSearched`); for an end event without any flow the index says no.
- Handler runs for one idempotency key can overlap once a reservation expires
  (`Idempotency.OverlapAfterExpiry`), and cannot otherwise (`Idempotency.NoOverlap`).

## Model

| member | source | states |
|---|---|---|
| Dfs.IterativeDFS | internal/bpmn_compiler/bpmncore/dfs.go:9-51 | The search ends on every graph, and whatever single steps of it keep (a node entered or refused, an edge offered, a node left) holds when it ends |
| BackEdges.ClassifyBackEdges | internal/bpmn_compiler/bpmncore/graph_algorithms.go:3-27 | Over any list of roots: a finish-order rank, on exactly the nodes the roots reach, drops along every flow kept, and each flow taken out closes a cycle of kept flows |
| BackEdges.BackEdgeIffClosesCycle | internal/bpmn_compiler/bpmncore/graph_algorithms.go:16-22 | A flow out of a reached node is a back edge if and only if its target leads forward to its source |
| BackEdges.ReachedIsUnbroken | internal/bpmn_compiler/bpmncore/graph_algorithms.go:29-35 | No node the roots reach can meet a cycle of forward flows |
| ForwardWalk.FromKeeps | internal/bpmn_compiler/bpmncore/joins.go:119-149 | The walk from a root leaves its order a finishing order of the flows it kept, beside everything walked before |
| ForwardWalk.TaintedIffReachesCycle | internal/bpmn_compiler/bpmncore/joins.go:119-160 | A node is marked cyclic if and only if it can reach a cycle of forward flows |
| ForwardWalk.CleanRanked | internal/bpmn_compiler/bpmncore/joins.go:119-160 | On the nodes not marked, the flows the walk kept are all their forward flows, and finishing places drop along them |
| PostDominators.PDIffPostDominates | internal/bpmn_compiler/bpmncore/graph.go:137-154 | Meeting the sets of the successors gives exactly the nodes that lie on every path that cannot be continued |
| PostDominators.ImmediateExists | internal/bpmn_compiler/bpmncore/graph.go:106-155 | Every node of an acyclic graph has one nearest node all its maximal paths pass, or none but itself |
| PostDominators.CommonAncestor | internal/bpmn_compiler/bpmncore/graph.go:157-166 | Climbing by depth ends, at the nearest common ancestor of the two nodes, the virtual exit included |
| Joins.ForwardCount | internal/bpmn_compiler/bpmncore/graph.go:96-104 | The count is the number of flows that are not back edges |
| Joins.MeetSuccessors | internal/bpmn_compiler/bpmncore/graph.go:139-150 | Meeting the successors from left to right gives the ancestors all of them have |
| Joins.ImmediatePostDominator | internal/bpmn_compiler/bpmncore/graph.go:106-155 | The result is the nearest node every maximal path from the root passes, and none exactly when only the root is on all of them |
| Joins.FindJoin | internal/bpmn_compiler/bpmncore/graph.go:88-94 | A split's join is its immediate post-dominator; fewer than two forward flows have none |
| Joins.JoinExact | internal/bpmn_compiler/bpmncore/graph.go:88-94 | Where no forward cycle can be reached, the join found is exactly the nearest node every maximal forward path from the split passes |
| Joins.JoinUnique | internal/bpmn_compiler/bpmncore/joins.go:42-51 | There is one join: two searches that answer, answer the same |
| Joins.WalkAll | internal/bpmn_compiler/bpmncore/joins.go:106-117 | One walk from every node that has flows meets exactly the nodes that have flows or receive a forward one |
| Joins.JoinIndex.constructor | internal/bpmn_compiler/bpmncore/joins.go:13-25 | A new index answers rightly for its graph and back edges |
| Joins.JoinIndex.Index | internal/bpmn_compiler/bpmncore/joins.go:60-80 | The loop over the finishing order leaves the tree, the cyclic nodes and the nodes that reach an end all right at once |
| Joins.JoinIndex.ReachesUnbrokenCycle | internal/bpmn_compiler/bpmncore/joins.go:38-40 | True if and only if the node reaches a cycle of forward flows |
| Joins.JoinIndex.Find | internal/bpmn_compiler/bpmncore/joins.go:42-51 | The shared index answers the join that a search below this split alone finds |
| Joins.SharedJoin | internal/bpmn_compiler/bpmncore/joins.go:42-51 | For a split that reaches no unbroken cycle the shared tree's parent is the join |
| Joins.JoinIndex.ReachesEndEvent | internal/bpmn_compiler/bpmncore/joins.go:53-58 | True if and only if the walk met the node and a forward path leads from it to an end event |
| Joins.SearchEndEvent | internal/bpmn_compiler/bpmncore/joins.go:162-176 | The search from one node finds an end event if and only if a forward path leads to one |
| Joins.SharedEndIffSearched | internal/bpmn_compiler/bpmncore/joins.go:53-58 | The shared answer equals the search exactly for nodes the walk met and for nodes that are no end events |
| Definitions.BuildGraph | internal/bpmn_compiler/bpmncore/graph.go:10-68 | The graph holds each declared element with the kind it was registered with last, and each node's flows in document order, both ways |
| Definitions.KindIsDeclared | internal/bpmn_compiler/bpmncore/graph.go:17-20 | With unique ids a node has a kind if and only if it is declared as that kind |
| Tarjan.TarjanRunner.StrongConnect | internal/bpmn_compiler/bpmncore/graph_algorithms.go:63-95 | One call numbers the new nodes it reaches, leaves the stack below it alone, and either stays for a lower node it reaches or takes off exactly one component |
| Tarjan.TarjanRunner.PopComponent | internal/bpmn_compiler/bpmncore/graph_algorithms.go:82-93 | The stack from the root node up becomes one component, each node once |
| Tarjan.TopIsComponent | internal/bpmn_compiler/bpmncore/graph_algorithms.go:82-93 | When the lowlink is the node's own index, what lies on the stack from it up is one whole component |
| Tarjan.TarjanSCC | internal/bpmn_compiler/bpmncore/graph_algorithms.go:97-105 | The components partition the nodes reached from the node set, and no flow leaves their union |
| Tarjan.TogetherIffMutual | internal/bpmn_compiler/bpmncore/graph_algorithms.go:97-105 | Two nodes share a component if and only if each reaches the other, and no node is in two |
| Traversal.TraverseNode | internal/bpmn_compiler/bpmncore/traverse.go:59-86 | Ends on every graph; a traversal that goes on stays within the node and stage budgets and one that stops is at most one visit over; with matched splits no join is missed |
| Traversal.CompilePlan | internal/bpmn_compiler/bpmncore/compile.go:18-44 | Every compilation ends with at most one visit and one stage over budget, within the node budget if it succeeds, and never misses a join where splits are matched |
| Traversal.Branches | internal/bpmn_compiler/bpmncore/traverse.go:361-383 | Branches keep the budgets and the absorbed flag of the state they branch from |
| Traversal.BoundaryPaths | internal/bpmn_compiler/bpmncore/traverse.go:204-225 | Boundary continuations keep the budgets of the compilation they follow |
| Traversal.CompileSubProcess | internal/bpmn_compiler/element/subprocess.go:31-63 | A sub-process and its body together keep the budgets; what it fails for is said by `Failures.SubProcessFares` |
| CompileStates.SharedStore.EnsureDept | internal/bpmn_compiler/bpmncore/traverse.go:28-34 | The store gains the department at the end, indexed, unless it has it |
| CompileStates.SharedStore.AppendStage | internal/bpmn_compiler/bpmncore/traverse.go:36-40 | The stage ends the department's list and the total counts it |
| CompileStates.SharedStore.LatestSegment | internal/bpmn_compiler/bpmncore/state.go:173-179 | The lane's latest segment if it has no stage, else the next number, registered |
| CompileStates.SharedStore.MarkNodeSegment | internal/bpmn_compiler/bpmncore/state.go:202-210 | The first segment a node is placed in stays |
| CompileStates.SharedStore.ReserveLanes | internal/bpmn_compiler/bpmncore/state.go:194-200 | Each lane without a segment gets its first one |
| CompileStates.LazyJoins.Get | internal/bpmn_compiler/bpmncore/joins.go:31-36 | The index is built once, for the graph and back edges of its state |
| CompileStates.CompileState.Main | internal/bpmn_compiler/bpmncore/state.go:63-99 | A compilation starts from an empty store and an empty state |
| CompileStates.CompileState.Branch | internal/bpmn_compiler/bpmncore/state.go:101-124 | A branch state shares store, joins and flag, and starts with no step, buffer, visit or open segment |
| CompileStates.CompileState.Continuation | internal/bpmn_compiler/bpmncore/traverse.go:213-215 | A boundary continuation shares the store and has a flag of its own |
| CompileStates.CompileState.Inner | internal/bpmn_compiler/element/inner_process.go:15-31 | A body's state works in its parent's store |
| CompileStates.CompileState.SegmentOf | internal/bpmn_compiler/bpmncore/state.go:171-187 | The open segment goes on in its lane, unless a boundary leads here; else the lane's latest empty or next segment opens |
| CompileStates.CompileState.AddToSeqBuf | internal/bpmn_compiler/bpmncore/traverse.go:42-46 | The buffer gains the segment at its end unless it holds it |
| CompileStates.CompileState.FlushSeqBuf | internal/bpmn_compiler/bpmncore/traverse.go:48-57 | A non-empty buffer becomes one sequential step; the open segment closes in any case |
| CompileStates.CompileState.AppendStep | internal/bpmn_compiler/bpmncore/state.go:136-138 | The step ends the state's steps |
| CompileStates.CompileState.ForwardNexts | internal/bpmn_compiler/bpmncore/traverse.go:17-26 | The targets of the flows that are not back edges, in document order |
| CompileStates.CompileState.BackNexts | internal/bpmn_compiler/bpmncore/traverse.go:239-247 | The targets of the back edges, in document order |
| CompileStates.CompileState.RevertBranches | internal/bpmn_compiler/bpmncore/traverse.go:249-269 | One revert branch for each back edge, in order |
| CompileStates.CompileState.TraverseNode | internal/bpmn_compiler/bpmncore/traverse.go:59-86 | Ends in the state, or the error, the specification gives |
| CompileStates.CompileState.TraverseForwardNexts | internal/bpmn_compiler/bpmncore/traverse.go:88-95 | The loop over the forward flows refines its specification |
| CompileStates.CompileState.CompileTask | internal/bpmn_compiler/element/user_task.go:39-58 | Segment, stage, buffer, then the first forward flow |
| CompileStates.CompileState.Compile | internal/bpmn_compiler/bpmncore/traverse.go:79-85 | The handler of the node's type does what the specification says for that type |
| CompileStates.CompileState.FindJoin | internal/bpmn_compiler/bpmncore/traverse.go:114-114 | The join asked of the shared index is the one the specification names |
| CompileStates.CompileState.HandleGateway | internal/bpmn_compiler/bpmncore/traverse.go:97-119 | The case split on forward flows, back edges and join refines its specification |
| CompileStates.CompileState.HandleSingleForwardWithReverts | internal/bpmn_compiler/bpmncore/traverse.go:121-137 | The step with one conditional branch refines its specification |
| CompileStates.CompileState.HandleSplitNoJoin | internal/bpmn_compiler/bpmncore/traverse.go:139-157 | A split without a join fails unless exclusive, as specified |
| CompileStates.CompileState.HandleSplitWithJoin | internal/bpmn_compiler/bpmncore/traverse.go:159-175 | Branches up to the join, the step, and on from the join, as specified |
| CompileStates.CompileState.TraverseBranches | internal/bpmn_compiler/bpmncore/traverse.go:361-383 | The loop over the branches refines the recursive specification |
| CompileStates.CompileState.BranchSteps | internal/bpmn_compiler/bpmncore/traverse.go:401-408 | A branch's own state is traversed, flushed and read |
| CompileStates.CompileState.CompileBoundaryPaths | internal/bpmn_compiler/bpmncore/traverse.go:204-225 | The loop over the boundary events refines its specification |
| CompileStates.CompileState.CompileBoundaryPath | internal/bpmn_compiler/bpmncore/traverse.go:205-223 | One continuation is compiled unless its task is placed, and its steps are kept unless it came back |
| CompileStates.CompileState.CompileSubProcessBody | internal/bpmn_compiler/element/inner_process.go:15-22 | The body runs in a state of its own and leaves its parent's fields alone |
| CompileStates.CompileState.RunInnerState | internal/bpmn_compiler/element/inner_process.go:33-42 | The first forward flow of the start event, then the boundary paths |
| CompileStates.CompileState.CompileSubProcess | internal/bpmn_compiler/element/subprocess.go:31-63 | Body first, then the mark, the flush, the step and the forward flow |
| CompileStates.CompileState.CompileCall | internal/bpmn_compiler/element/call_activity.go:27-69 | Reserved lanes, flush, call step and forward flow |
| CompileStates.CompileWithImplicitStart | internal/bpmn_compiler/bpmncore/compile.go:18-66 | The departments and steps returned are those of the specified compilation, and so is the error |
| Segments.LatestEmpty | internal/bpmn_compiler/bpmncore/state.go:171-187 | What opening a lane's latest segment yields is empty, whoever filled the lane before |
| Segments.StageAppended | internal/bpmn_compiler/bpmncore/traverse.go:36-40 | A stage reaches its own department at the end and no other, and the total stays the sum |
| Segments.AddTaskGoes | internal/bpmn_compiler/element/user_task.go:50-52 | Read in order, the buffer's segments give the stages in the order they were emitted |
| Segments.AddTaskPlaces | internal/bpmn_compiler/bpmncore/state.go:171-217 | A stage lands at the end of a segment of its task's own lane: the open one, or, on a lane change or where a boundary event leads, one that had no stage; a node keeps the first segment it was placed in |
| Segments.NodeGoes | internal/bpmn_compiler/bpmncore/traverse.go:59-86 | Over any traversal of any graph every segment filled before keeps its stages, the own open one growing only at its end, and steps once emitted stay |
| Segments.GatewayGoes | internal/bpmn_compiler/bpmncore/traverse.go:97-119 | A gateway that branches or goes back shuts every segment filled before it |
| Segments.BranchApart | internal/bpmn_compiler/bpmncore/traverse.go:401-408 | A branch touches no segment of the state it branches from, and its steps read filled segments only |
| Segments.RunBodyApart | internal/bpmn_compiler/element/inner_process.go:15-22 | A sub-process body touches no segment of its parent |
| Segments.SubProcessShuts | internal/bpmn_compiler/element/subprocess.go:31-63 | The segment a parent had open before a sub-process never gets another stage |
| Segments.BoundaryApart | internal/bpmn_compiler/bpmncore/traverse.go:204-225 | Boundary continuations touch no segment of the main flow |
| Segments.PlanSegments | internal/bpmn_compiler/bpmncore/state.go:171-187 | For a whole plan the index is the inverse of the departments, each lane's segments are numbered from 1 without a gap, only a lane's latest may be empty, the stage count is their total, a node is placed only in a segment with stages, every task with a stage is placed, and no step reads an empty segment |
| BoundaryTasks.LeadsToFirstWork | internal/bpmn_compiler/bpmncore/traverse.go:271-285 | A boundary event leads to the first user task or sub-process, not skipped, along the chain of first forward flows from its own first flow's target, and to none if that chain ends or closes before |
| BoundaryTasks.StartsWhereLedTo | internal/bpmn_compiler/bpmncore/state.go:94-98 | A task starts a segment of its own if and only if a boundary event of the process leads to it |
| BoundaryTasks.StartsAt | internal/bpmn_compiler/bpmncore/state.go:290-312 | Steps start at the first department of their first step: of a sequential step its first, of a sub-process that of its own steps, of a gateway that of its first branch to have one, parallel before exclusive |
| SegmentReads.NodeReads | internal/bpmn_compiler/bpmncore/traverse.go:59-86 | What a traversal adds to its steps and buffer names each segment at most once and none that had stages before |
| SegmentReads.BranchNew | internal/bpmn_compiler/bpmncore/traverse.go:401-408 | A branch's steps name each segment at most once, and none that had stages when the branch began |
| SegmentReads.PathNew | internal/bpmn_compiler/bpmncore/traverse.go:204-225 | The steps kept for a boundary event name each segment at most once and none of the main flow's |
| SegmentReads.PlanReadsOnce | internal/bpmn_compiler/bpmncore/traverse.go:48-57 | A whole plan's steps, at every nesting of branches and bodies, name each department segment at most once |
| SegmentNames.SegmentIdInjective | internal/bpmn_compiler/bpmncore/state.go:212-217 | Where lane names hold no tilde, two segments share a rendered id only if they are the same |
| SegmentNames.LanesCollideIff | internal/bpmn_compiler/validator/process.go:51-58 | Two lanes can be given one id if and only if one is named like a later segment of the other |
| GatewaySteps.GatewayBranches | internal/bpmn_compiler/bpmncore/traverse.go:97-175 | A gateway's step has one branch for each forward flow in document order and one revert for each back edge; only exclusive gateways' branches exclude each other, and only branches that never meet again end the run |
| GatewaySteps.FlowsConserved | internal/bpmn_compiler/bpmncore/traverse.go:239-247 | Forward flows and back edges together are all the flows, each once |
| Plans.SameLang | internal/bpmn_compiler/bpmncore/state.go:134-134 | What steps run depends only on the stages of the segments they read |
| PathLanguage.Onwards | internal/bpmn_compiler/bpmncore/traverse.go:59-86 | The words from a node are its own word followed by the words from one of its forward targets |
| PathLanguage.SplitAt | internal/bpmn_compiler/bpmncore/traverse.go:159-175 | Where a node lies on every path, the words up to it followed by the words from it are all the words |
| PlanMeaning.NodeMeans | internal/bpmn_compiler/bpmncore/traverse.go:59-175 | At any nesting, with or without a stop node, what a state has emitted after a traversal runs exactly what it ran before followed by the words along the forward paths from the node, up to the stop node |
| PlanMeaning.BranchMeans | internal/bpmn_compiler/bpmncore/traverse.go:401-408 | The steps of a branch with stop node J run exactly the words along the forward paths up to J |
| PlanMeaning.SubProcessMeans | internal/bpmn_compiler/element/subprocess.go:31-63 | A sub-process step runs exactly the words of its body |
| PlanMeaning.CompilationPreservesPaths | internal/bpmn_compiler/bpmncore/compile.go:18-66 | A word is run by the plan if and only if it is the word of a forward path from the entry to an end event |
| PlanMeaning.ContinuationMeans | internal/bpmn_compiler/bpmncore/traverse.go:213-222 | The steps kept for a boundary event run exactly the words along the forward paths from where it leads |
| PlanMeaning.BoundaryPathMeans | internal/bpmn_compiler/bpmncore/traverse.go:204-225 | For a boundary event the plan keeps nothing when no task lies ahead, nothing when that task is placed already, in a segment that has stages, and nothing when the path rejoined; else steps that run exactly the words along the paths from where it leads, in every later store |
| Ways.AheadReaches | internal/bpmn_compiler/bpmncore/traverse.go:59-175 | What lies ahead of a node by the flows its handlers follow, and the joins after splits, is reached along forward flows |
| Ways.AheadOfSplit | internal/bpmn_compiler/bpmncore/traverse.go:159-175 | Ahead of a split lie exactly its branches up to the join and what is ahead of the join |
| Ways.BranchNotAfter | internal/bpmn_compiler/bpmncore/traverse.go:159-175 | Nothing a branch comes to before the join is come to again after it |
| Failures.NodeFares | internal/bpmn_compiler/bpmncore/traverse.go:59-86 | A traversal of any graph that fails was stopped by a node it came to, in its process or in a body it came to: a sub-process without a body, a call that does not compile, a split that must have a join and has none; or by a budget used up. One that goes on came to none of these |
| Failures.SubProcessFares | internal/bpmn_compiler/element/subprocess.go:31-63 | A sub-process fails outright only where it has no body, else only for what its body or what follows earned |
| Failures.CallFares | internal/bpmn_compiler/element/call_activity.go:27-69 | A call fails outright only where the called process does not compile |
| Failures.PlanFares | internal/bpmn_compiler/bpmncore/compile.go:18-44 | A plan fails for want of a start if and only if there is neither a start event nor an implicit one; every other error is earned by a node ahead of the entry or of where a boundary event leads, in its process or a body |
| Failures.PlanServes | internal/bpmn_compiler/bpmncore/state.go:156-217 | In a plan that compiles every task visited is placed in a segment of its own lane, in a body the sub-process's lane if it sits in none, and every lane a visited call reserves has a department |
| Rejoins.NodeComes | internal/bpmn_compiler/bpmncore/traverse.go:59-86 | A traversal that goes on visits nothing but what lies ahead, all of it unless it came back, and each node there compiles; a continuation comes back if and only if ahead of it is a node, no end event, that was visited before, or one that two branches of a split both come to before their join |
| Rejoins.PathComes | internal/bpmn_compiler/bpmncore/traverse.go:204-225 | The path out of a boundary event has steps of its own if and only if it does not come back; then all that lies ahead was compiled |
| Rejoins.PlanComes | internal/bpmn_compiler/bpmncore/compile.go:18-44 | A plan that compiles has visited and compiled all that lies ahead of its entry |
| Rejoins.PlanHandlesEvents | internal/bpmn_compiler/bpmncore/traverse.go:204-225 | In a plan that compiles each boundary event that leads to a task has steps of its own, or that task has its place, or the path comes back to what was visited |
| PlanMeaning.DropReturns | internal/bpmn_compiler/element/boundary.go:54-56 | The handler of a start event, an error boundary event, or a timer or message boundary event without outgoing flow changes nothing and goes nowhere |
| EarlyEnds.PathEps | internal/bpmn_compiler/bpmncore/traverse.go:59-86 | The forward paths from a node, up to the stop node if there is one, run nothing if and only if no task, call or working sub-process is forward-reachable from it on the way |
| EarlyEnds.StepsSplit | internal/bpmn_compiler/bpmncore/traverse.go:121-175 | Whatever follows them, steps run what ends inside them, and what gets through them followed by the rest |
| EarlyEnds.DropMeans | internal/bpmn_compiler/element/boundary.go:54-56 | A state whose steps go on and that enters a node that returns at once: its steps run all its words if and only if its buffer is empty and no work is ahead; once flushed, if and only if no work is ahead |
| EarlyEnds.DropEntered | internal/bpmn_compiler/bpmncore/traverse.go:59-86 | Such a node is visited and left exactly when it is neither the stop node's nor seen before and the budgets hold |
| Spine.AfterMeets | internal/bpmn_compiler/bpmncore/traverse.go:97-175 | Whatever a state enters itself after a node, its one target or the join of a split, is on every path from that node |
| Spine.NodeUntil | internal/bpmn_compiler/bpmncore/traverse.go:59-175 | A traversal goes on from a node on every path exactly as the traversal stopped there ends, with stages held back if and only if a task is on the way after the last split, revert, call or sub-process |
| Spine.RunIntoDrop | internal/bpmn_compiler/bpmncore/traverse.go:79-86 | The steps of a state that comes to a node that returns at once run exactly the words of the paths it compiles if and only if no stage is held back there and no work is ahead; of a branch or continuation, whose buffer is flushed, if and only if no work is ahead |
| Spine.PlanIntoDrop | internal/bpmn_compiler/bpmncore/compile.go:32-44 | A plan whose main flow comes to such a node means its graph if and only if no stage is held back there and no work is ahead |
| QuietEnds.RegularFrom | internal/bpmn_compiler/bpmncore/traverse.go:159-175 | Where every node that returns at once stands inside a branch with no work between it and the branch's join, everything compiled from the entry up to its stop node is compiled as it should be |
| QuietEnds.NothingDropsQuiet | internal/bpmn_compiler/bpmncore/traverse.go:59-86 | Nothing is lost where no node ahead returns at once |
| QuietEnds.WayToDrop | internal/bpmn_compiler/bpmncore/traverse.go:59-175 | Branches that lose nothing do not stand in the way of the first node of the main flow that returns at once |
| Validation.ValidateSeqFlowRefs | internal/bpmn_compiler/validator/process.go:92-105 | A flow is reported if and only if one of its ends is no known node |
| Validation.ValidateDanglingNodes | internal/bpmn_compiler/validator/process.go:107-174 | A node is reported if and only if it lacks a flow its kind needs, the implicit start excepted |
| Validation.MarkReachable | internal/bpmn_compiler/bpmncore/graph_algorithms.go:37-48 | The nodes marked are those before and those the start reaches, closed under flows |
| Validation.ValidateReachability | internal/bpmn_compiler/validator/reachability.go:8-36 | A node is reported if and only if it is no boundary event and neither the start nor a boundary event reaches it |
| Validation.FirstForward | internal/bpmn_compiler/bpmncore/graph.go:168-175 | The first flow that is not a back edge, if there is one |
| Validation.SccHasGuardedExit | internal/bpmn_compiler/validator/loops.go:45-62 | True if and only if some branching node of the component has a flow out of it |
| Validation.ValidateLoops | internal/bpmn_compiler/validator/loops.go:12-43 | A loop is reported at a node exactly when a back edge leaves it unguarded, and a cycle exactly for each component of several nodes without a guarded exit |
| Validation.CheckSplitJoin | internal/bpmn_compiler/validator/gateway_matching.go:25-39 | A split is refused if and only if it meets no unbroken cycle, has no join, and is not an exclusive one whose branches all reach an end event |
| Validation.AllBranchesTerminate | internal/bpmn_compiler/validator/gateway_matching.go:41-51 | True if and only if every forward branch reaches an end event |
| Validation.ValidateGatewayMatching | internal/bpmn_compiler/validator/gateway_matching.go:10-23 | The gateways reported are exactly the unmatched ones of the three kinds |
| Validation.SingleOutgoingErrors | internal/bpmn_compiler/validator/single_outgoing.go:11-58 | Reported are exactly the end events with a forward flow, and the start events, user, send and receive tasks, sub-processes and calls with several |
| Validation.ValidateBoundaryEvents | internal/bpmn_compiler/validator/boundary.go:33-69 | Reported are exactly the boundary events without exactly one definition and those with several forward flows |
| Depth.ValidateMaxDepth | internal/bpmn_compiler/validator/depth.go:18-49 | The memo of the start is the node count of the longest forward path from it, and an error is reported if and only if some forward path has more than 2000 nodes |
| Depth.BestIsLongest | internal/bpmn_compiler/validator/depth.go:30-41 | One more than the longest of the forward targets is the longest from the node |
| Acceptance.Validate | internal/bpmn_compiler/validator/validator.go:22-57 | The structural passes together accept a process if and only if none of their conditions is violated |
| Acceptance.OptionToComplete | internal/bpmn_compiler/validator/process.go:92-174 | Without a flow, dangling, reachability or loop error every node has a forward path to an end event or to a message boundary event without outgoing flow |
| Acceptance.NoTrapsLeft | internal/bpmn_compiler/validator/loops.go:34-42 | With its loops guarded and every node reached a process is never reported for a cycle: the lowest node of each component has a guarded exit |
| Acceptance.GatewaysTotal | internal/bpmn_compiler/validator/gateway_matching.go:10-39 | With every node reached and no gateway reported, every parallel and inclusive split has its join |
| Acceptance.KeptSane | internal/bpmn_compiler/validator/validator.go:22-57 | Every known node of an accepted process either returns at once or is compiled along all its forward flows |
| Outcomes.AcceptedCompiles | internal/bpmn_compiler/validator/validator.go:22-57 | An accepted process fails to compile only for a sub-process without a body or a call that does not compile, which it comes to along forward flows from its entry or from where a boundary event leads, or likewise in a body, or with more than 1000 stages or 10000 visits; where nothing ahead of its entry returns at once but inside branches with no work left up to their join, its plan runs exactly the words along its forward paths |
| Outcomes.AcceptedCompiled | internal/bpmn_compiler/validator/validator.go:22-57 | An accepted process that compiles kept its budgets and visited all that lies ahead of its entry; every sub-process there has its body and every call there compiles, in those bodies too, every task there is placed in its own lane, and every boundary event is handled |
| Outcomes.ReachedIsAhead | internal/bpmn_compiler/bpmncore/traverse.go:59-175 | In an accepted process, where nothing ahead returns at once, all that is reached along forward flows lies ahead |
| Outcomes.RefusedIfLeftOut | internal/bpmn_compiler/validator/single_outgoing.go:11-18 | Of the nodes that are no end or boundary events, the kinds refused with several forward flows are exactly those whose handler would leave one out |
| Acceptance.KeptEntryQuiet | internal/bpmn_compiler/validator/validator.go:22-57 | Nothing is lost ahead of the entry of an accepted process where no node ahead returns at once |
| Acceptance.AcceptedStopsShort | internal/bpmn_compiler/bpmncore/compile.go:32-44 | An accepted process whose every path meets a node that returns at once, nothing being lost before: its plan means its graph if and only if no stage is held back there and no work is ahead |
| Outcomes.AcceptedBoundary | internal/bpmn_compiler/bpmncore/traverse.go:204-225 | The path out of a boundary event of an accepted process has no steps of its own exactly when it comes back, to a node other than an end event that was visited or twice to one; else its steps run exactly the words of the paths from where it leads, where nothing there returns at once but inside branches that lose nothing by it |
| LostWork.IsClean | internal/bpmn_compiler/validator/validator.go:22-57 | A declared process with a flow into an error boundary event passes every structural pass |
| LostWork.PlanLosesTasks | internal/bpmn_compiler/element/boundary.go:54-56 | It compiles, with five visits, but its plan runs its call alone: the task before the event and the task after it are on its one path and not in its plan |
| SplitsAccepted.SplitsAreAccepted | internal/bpmn_compiler/validator/validator.go:22-57 | A declared process with a parallel, an inclusive and an exclusive split, a flow back and a timer passes every structural pass |
| Routes.RouteSearch.Find | internal/core/service/module_resolution.go:209-242 | On any call graph, cyclic ones too: all root calls that avoid the modules being visited are found, a complete result misses none, and only whole answers are remembered |
| Routes.RoutesTo | internal/bpmn_compiler/validator/call_graph.go:150-180 | At top level the routes are exactly the root calls that lead to the module, each once, each by a genuine path |
| Routes.LastStep | internal/core/service/module_resolution.go:226-236 | A root call that leads to a module does so by a hop of its own or through a caller without coming back to it |
| Routes.FullIsExact | internal/core/service/module_resolution.go:209-242 | A root call is among the routes if and only if it leads to the module |
| CallGraph.ValidateCallGraph | internal/bpmn_compiler/validator/call_graph.go:12-70 | A cycle is reported if and only if the call graph has one; without one, the processes flagged are exactly the uncalled callers whose full expansion exceeds the limit |
| CallGraph.CallGraphCheck.Visit | internal/bpmn_compiler/validator/call_graph.go:25-49 | A visit finishes what it meets, keeps what was met before, and ranks each process above those it calls unless a cycle was reported |
| CallGraph.CallGraphCheck.Follow | internal/bpmn_compiler/validator/call_graph.go:29-44 | One call is counted, followed or reported, and what is called is noted |
| CallGraph.ExpandedAgrees | internal/bpmn_compiler/validator/call_graph.go:12-58 | What a process expands to does not depend on the order it is worked out in |
| CallGraph.ExpandsFlat | internal/bpmn_compiler/validator/call_graph.go:25-49 | A process of t user tasks with n calls of processes of s tasks that call nothing expands to t + n * (1 + s) |
| CallGraph.OwnCallIsCycle | internal/bpmn_compiler/validator/call_graph.go:25-49 | A process alone in its file is in a call cycle if and only if it calls itself and is not ignored |
| Modules.ReadsRight | internal/bpmn_compiler/modules.go:60-101 | A call asks the library for the latest if it says so and names no process of its document, and for version n if it is pinned to n, from 1 on, and names no other process there; it is unresolvable by an expression, an unknown binding, a binding to its file where the process is not, a pin that is no version, or a pin on another process of its file |
| Modules.ModuleCalls | internal/bpmn_compiler/modules.go:33-58 | The calls listed are exactly those of call activities that ask for a version, each with its own id, the process named and the version asked for; an issue is reported exactly at each unresolvable call and, beside a library call, at each rejected element |
| Modules.LocalIsFound | internal/bpmn_compiler/bpmncore/graph.go:232-256 | A call counts as local if and only if its name finds a process of the document, by id or by a participant |
| Modules.CallsOf | internal/bpmn_compiler/modules.go:46-55 | The calls of one process that ask for a version, with what they ask for, and exactly the unresolvable calls |
| Resolution.ModuleWalk.VisitCall | internal/core/service/module_resolution.go:138-175 | Own latest version, failed key, known key, missing module and new version are handled as specified; another lookup error changes nothing |
| Resolution.ModuleWalk.ReachVersion | internal/core/service/module_resolution.go:177-182 | The edge is recorded once |
| Resolution.ModuleWalk.ReportIssue | internal/core/service/module_resolution.go:184-193 | An issue of the main document is kept at once, one of a module document with the document, in order of first report |
| Resolution.ModuleWalk.AttributeModuleIssues | internal/core/service/module_resolution.go:195-207 | After it there is an issue at a call if and only if there was one or some document with issues is reached from it |
| Resolution.VisitKeeps | internal/core/service/module_resolution.go:138-175 | Each call leaves one module entry per key, one record per version, each recorded version reached and queued or read once, and the call resolved or its document reported |
| Resolution.Explained | internal/core/service/module_resolution.go:83-122 | There is an issue at the end if and only if the main document, or a version it needs, has an issue of its own or a call of the module being saved or of a module that is not there |
| Resolution.AllRecorded | internal/core/service/module_resolution.go:138-175 | Where the worklist gets to its end, the versions recorded are exactly those needed, and no lookup it needed failed |
| Resolution.ReportsExactly | internal/core/service/module_resolution.go:195-207 | An issue stands at a node if and only if it is one of the main document itself, or a faulty call of it, or a call of it that leads, itself or through other versions, to a version with an issue or a faulty call |
| Resolution.Resolve | internal/core/service/module_resolution.go:83-122 | The worklist ends. It fails if and only if the main document or a version it needs calls, not as the module being saved, a module whose lookup fails; else it refuses exactly the documents that need something faulty, reporting exactly the calls that are faulty or lead to something faulty; else it records exactly the versions needed, with a module for every library call of each |
| Bundle.PointLibraryCalls | internal/bpmn_compiler/bundle.go:94-105 | Each library call with a plan is renamed to it and no other call changes |
| Bundle.PointSelfCalls | internal/bpmn_compiler/bundle.go:112-118 | Calls of the module's own process follow its new name |
| Bundle.BundleModules | internal/bpmn_compiler/bundle.go:12-54 | The main processes pointed at their plans, then one process for each plan, once; it fails only for a document without exactly one process |
| Bundle.MainCallsResolve | internal/bpmn_compiler/bundle.go:23-26 | After a resolution without issues every call of a main process that asks for a version names, in the bundle, the plan of the version the library has for it, and every other call is as it was |
| Bundle.ModuleCallsResolve | internal/bpmn_compiler/bundle.go:39-46 | And so does every such call inside every bundled module, calls of its own process following the new name |
| Bundle.BundleComplete | internal/bpmn_compiler/bundle.go:12-54 | Resolved and bundled: plan ids are distinct, each is that of a version reached, and every call that asks for a version, of a main process or inside a module, names that version's plan |
| Bundle.PinnedNames | internal/bpmn_compiler/bundle.go:94-105 | Where the library keeps pins, a call pinned to version n of a process not in its document names plan n in the bundle, and that plan is there |
| Bundle.ResolveAndBundle | internal/core/service/module_resolution.go:83-122 | Resolving and bundling end to end: the plans added are those of the versions the document needs, each once, and every call that asks for a version, of the main processes and inside every module, names the plan of the version the library has for it; it fails or refuses exactly as resolution does, and fails to bundle only for a needed version without exactly one process |
| Bundle.PlanFinds | internal/bpmn_compiler/bpmncore/graph.go:232-239 | In the bundle a plan's name finds its module's process if and only if no main process has that name |
| Bundle.PointedFinds | internal/bpmn_compiler/bpmncore/graph.go:232-239 | A library call finds, in the bundle, the module added for it unless a main process has the plan's name |
| Bundle.LocalCallIsOwn | internal/bpmn_compiler/modules.go:74-87 | In a module, which is one process, a call that is no library call but names a process calls that process itself |
| Bundle.OwnCallFinds | internal/bpmn_compiler/bundle.go:112-118 | Such a call finds the module's process in the bundle if and only if no main process has the plan's name and it is by the process's id, by the plan's name, or by a participant of the main document that runs the plan; it finds nothing exactly when it is by a participant's id the bundle does not know |
| PlanCache.DoKeeps | internal/core/service/compiled_plan_service.go:43-78 | Every step of any reader or writer keeps: a cached plan of a revoked version means a request in flight will delete it, or some delete failed |
| PlanCache.RunsKeep | internal/core/service/membership_event.go:104-126 | The same over every run of any number of requests |
| PlanCache.NothingStaleWhenDone | internal/core/service/workflow_service.go:169-186 | When all requests are done and no delete failed, a plan is cached only of a version that is published and not marked invalid |
| PlanCache.ReaderCaches | internal/core/service/compiled_plan_service.go:43-78 | A reader left alone caches the plan of a published, valid version and of no other |
| PlanCache.WriterRevokesAlone | internal/core/service/workflow_service.go:169-186 | Marking a version invalid, or archiving it, leaves it so and its plan not cached |
| PlanCache.SecondLookNeeded | internal/core/service/compiled_plan_service.go:67-78 | Without the reader's second look a run exists that leaves a revoked plan cached |
| Idempotency.RunsGuarded | internal/adapter/inbound/http/handler/idempotency.go:51-119 | Over every run: a reservation belongs to a request that will give it back; while none expires its holder is alone past it; while nothing expires one response at most is stored and no handler is at work beside it |
| Idempotency.NoOverlap | internal/adapter/inbound/http/handler/idempotency.go:102-119 | While no reservation expires handler runs never overlap |
| Idempotency.NoRunAfterSuccess | internal/adapter/inbound/http/handler/idempotency.go:140-173 | Once a success is stored, and while nothing expires, no run starts and nothing else is stored |
| Idempotency.AnswersAreEarned | internal/adapter/inbound/http/handler/idempotency.go:140-173 | In every run what is stored is the response to a request with its body whose handler ran to success; a request that is replayed has the body of the response it got, one that is refused for a stored response has another, and neither ran |
| Idempotency.LaterAreReplayed | internal/adapter/inbound/http/handler/idempotency.go:140-158 | Once a success is stored, and while nothing expires, every later request ends replayed if it has the stored body and refused if it has another, if it ends at all |
| Idempotency.ReservationKept | internal/adapter/inbound/http/handler/idempotency.go:102-119 | No step takes a reservation from the request that holds it |
| Idempotency.AloneRuns | internal/adapter/inbound/http/handler/idempotency.go:51-119 | A request left alone runs its handler once, stores its response if and only if that succeeded, and gives its reservation back |
| Idempotency.OverlapAfterExpiry | internal/adapter/inbound/http/handler/idempotency.go:51-119 | A run in which the reservation expires and two handlers run side by side |
| TenantPurge.NoLateWork | internal/core/service/tenant_purger.go:59-152 | Over every run: once the record has changed, a sweep in progress deletes no further artifact batch, marks nothing, and deletes at most one more credential |
| TenantPurge.StaleChangesNothing | internal/adapter/outbound/postgres/tenant_retention_repo.go:149-170 | A step of a sweep whose record has changed leaves rows and record as they are |
| TenantPurge.MarkedOnlyWhenEmpty | internal/core/service/tenant_purger.go:98-131 | Over every run: a tenant is marked purged only by a sweep whose record has not changed and whose last pass deleted nothing and found no rows; unless rows came in since, there are none |
| TenantPurge.CredentialsMarkedWhenErased | internal/core/service/tenant_purger.go:133-152 | Over every run: the credentials are marked purged only by a sweep whose record has not changed and that deleted every one of them |
| TenantPurge.FinishedMarked | internal/core/service/tenant_purger.go:59-96 | A sweep that ends without a failure has marked what it was begun for |
| TenantPurge.CredentialsPurged | internal/core/service/tenant_purger.go:133-152 | A sweep left alone deletes the credentials and marks them purged before it turns to the artifacts |
| TenantPurge.ArtifactsPurged | internal/core/service/tenant_purger.go:98-131 | A sweep left alone deletes every row, batch by batch, and marks the tenant purged |
| TenantPurge.Batch | internal/adapter/outbound/postgres/tenant_retention_repo.go:149-170 | A batch deletes nothing exactly when all tables are empty, conserves what it does not count, and stays within its limit |
| TenantPurge.Backoff | internal/core/service/tenant_purger.go:90-96 | The wait doubles with each attempt after the first, up to the limit |

## Left out

- XML decoding, token scanning, namespace and allow-list checks, diagram completeness, message texts: flat scans around the core.
- Stage fields, extension elements, schedules, IO mappings, assignees: a stage stands for its task and no more.
- A called plan's own compilation: a call is one symbol, with the set of calls that fail to compile and the lanes its binding reserves given as inputs.
- `ResolveTargets` and revert departments: a branch carries the flow it was compiled from, in place of its condition and of the names of its target; where nodes were first placed is kept, but neither used further nor kept for each state.
- CompileStates.CompileState.Inner: `ShareSegmentsWith` is part of the constructor, so the store the body state briefly had of its own is not modelled.
- CompileStates.CompileState.CompileTask: one method for user, send and receive tasks, which differ in the stage they build.
- Sub-processes inside sub-process bodies: the source drops them when it turns a body into a process, so bodies are one level deep here too.
- The sorted order of the walk's roots and the random order of map iteration: the results hold for every order.
- Acceptance.Validate: the passes over counts, lane names, duplicate ids, conditions, schedules, revert targets and single elements are not in it, nor what boundary events are attached to.
- Validation.ValidateBoundaryEvents: the definitions and forward flows of a boundary event only; its host, `cancelActivity`, counts per host, duration and target kinds are not modelled.
- Outcomes.AcceptedCompiled: asks that no node of a body is one of the process, which unique ids give; the pass for duplicate ids is not modelled.
- Rejoins.NodeComes: for graphs whose kept flows drop in some rank and where only gateways split, as in every accepted process.
- Definitions.BuildGraph: a boundary event is its id and which of the three definitions it has.
- PlanMeaning.CompilationPreservesPaths: a parallel step is read one branch at a time, so the interleavings of parallel branches are not words of a plan.
- Spine.RunIntoDrop: exact for each state, main, branch or continuation; for the words of a whole plan the equivalence is stated where every path meets the node (`Acceptance.AcceptedStopsShort`); for nodes inside branches it is shown sufficient that no work is lost (`Outcomes.AcceptedCompiles`), since words lost inside one branch may be run by another.
- CompileStates.CompileState.SegmentOf: the segment a state itself placed a node in (`pathSegment`) is not kept, and a lane's name is never empty, so an open segment is never mistaken for none.
- CompileStates.SharedStore.MarkNodeSegment: the first segment of a node is kept for the whole compilation only, not for each state.
- CompileStates.CompileState.Branch: without `pathSegment`, so nothing of the parent's is cloned but its store, joins and flag.
- CompileStates.CompileState.Main: skipped tasks, lanes and boundary targets are given with the process.
- CompileStates.CompileState.RevertBranches: the department, stage and task a revert goes back to are not modelled.
- CompileStates.CompileState.CompileCall: whether the called process compiles, and the lanes its binding reserves, are inputs.
- CallGraph.ValidateCallGraph: duplicate ids and plan-name clashes are not reported; calls name the first process with their id.
- Modules.ModuleCalls: a document that does not parse counts as one without processes, and where rejected elements stand is given with the document.
- Resolution.Resolve: lookups are a fixed table for the length of one resolution, and versions with one id are one row.
- Bundle.PinnedNames: asks that the library's row for a pinned key has the number pinned, which is what the lookup in the database is for.
- Bundle.BundleModules: messages and errors renamed for each module are not modelled.
- PlanCache.RunsKeep: one version and its key, since versions share nothing; cache expiry may happen at any moment; a failed write is taken to have had no effect.
- Idempotency.RunsGuarded: one key with working cache calls; the body hash is the body.
- TenantPurge.NoLateWork: what each guarded update does when the version differs is taken from the repository's contract (an error and no change); the SQL is not part of this model.
- HTTP routing, configuration, metrics, logging, plan limits, drafts, quotas and outbound clients.

Nothing here was executed; the results are proofs about the model.

# Execution-plan nodes and groups, modelled in Dafny

This project models the part of Gradle's execution planner that decides when
a task node's dependencies count as *complete* and when they count as
*successful*, and how must-run-after, should-run-after, finalizer and ordinal
constraints attach to nodes (`org.gradle.execution.plan`: `TaskNode`,
`FinalizerGroup`, `NodeGroup`, `OrdinalNode`).

- `ordered_sets.dfy` (module `OrderedSets`). Node indices double as the nodes' sort key (see "Left out" for the ordinal node's `compareTo`).
  - A `TreeSet<Node>` is a set of indices iterated by `Ascending`, its strictly increasing enumeration, and `descendingSet()` is `Reverse` of that.
  - A `LinkedHashSet<Node>` is a duplicate-free sequence, updated by `Append` and `Without`.
- `node_group.dfy` (module `NodeGroups`).
  - `NodeGroup` is a datatype with the variants `Default`, `Ordinal` and `Finalizer`. Its virtual methods become functions that match on the variant.
  - `FinalizerGroup` is a class. Its inherited `ordinal` and insertion-ordered `members` change in place.
- `ordinal_node.dfy` (module `OrdinalNodes`).
  - The barrier node's identity `(type, ordinal)` and its constant answers.
  - `compareTo` and the display name.
- `task_node.dfy` (module `TaskNodes`). The node graph is an arena: a map from node index to a per-node record.
  - The record holds the base node's facts and the five `TaskNode` edge sets.
  - Each Java mutator is a function on the arena.
  - Lemmas show that each mutator keeps the graph invariant `GraphOk`, which has three parts:
    - indices in use are below the next one to hand out, and edges lead to nodes of the graph;
    - only tasks carry task edges, and a finalizer group belongs to a task of the graph;
    - `mustPredecessors` is the inverse of `mustSuccessors`.
  - A separate property, `FinalizerEdgesMirrored`, says that between tasks `finalizers` is the inverse of `finalizingSuccessors`.
    - `addFinalizingSuccessor` keeps it, and so do adding a node, the must and should edges, the base dependency edges, `addDependenciesFrom` and `maybeInheritGroupAsFinalizer`.
    - `addFinalizer` called on its own breaks it, because it records only one end of the pair (`AddFinalizerAloneBreaksMirror`).
  - Class `NodeGraph` owns the arena and carries the imperative operations. It checks dependencies with early-return loops, updates edges, runs `addDependenciesFrom`, inherits finalizer groups and visits dependents.
  - The successor views are functions of the arena, with lemmas tying them together.

The base `Node` class, `OrdinalGroup` and `TaskInAnotherBuild` are not part
of this model. Their answers are recorded as data on each node:
- the base dependency checks (`baseDependenciesComplete`, `baseDependenciesSuccessful`);
- the base node's own dependency successors;
- `isRequired`;
- the execution state, from which `isComplete` and `isExecuted` are derived;
- whether a task comes from another build.

Notes on the code's behaviour:
- **A failed must-successor does not block.** A must-run-after edge gates completion only. `allDependenciesSuccessful` ignores must-successors outside a finalizer group (TaskNode.java:59-77). So a task ordered after a failed task is not blocked by that edge. `MustSuccessorOutcomeIsIrrelevant` states this.
- **Ordinal nodes with equal fields are still distinct nodes.** `OrdinalNode` does not override equality, so two ordinal nodes with the same type and ordinal are two nodes. `NewOrdinalNode` always hands out a fresh index.
- **`compareTo` breaks the `Comparable` contract.** It answers -1 against every node, itself included (`CompareToIsNotAntisymmetric`).

## Model

| member | source | states |
|---|---|---|
| OrderedSets.Ascending | subprojects/core/src/main/java/org/gradle/execution/plan/TaskNode.java:29-33 | iterating a `TreeSet` yields each element exactly once, in strictly increasing order |
| OrderedSets.AscendingAdd | subprojects/core/src/main/java/org/gradle/execution/plan/TaskNode.java:112 | adding to a `TreeSet` puts the new element at its sorted place in the iteration and leaves the rest in order |
| OrderedSets.AscendingRemove | subprojects/core/src/main/java/org/gradle/execution/plan/TaskNode.java:126-128 | removing from a `TreeSet` drops exactly that element from the iteration and keeps the rest in order |
| OrderedSets.InsertKeepsIncreasing | subprojects/core/src/main/java/org/gradle/execution/plan/TaskNode.java:112 | sorted insertion keeps the sequence strictly increasing, and inserting a present element changes nothing |
| OrderedSets.IncreasingDeterminedByElements | subprojects/core/src/main/java/org/gradle/execution/plan/TaskNode.java:29-33 | two strictly increasing sequences with the same elements are equal, so a set fixes its iteration order |
| OrderedSets.ReverseOfIncreasing | subprojects/core/src/main/java/org/gradle/execution/plan/TaskNode.java:102-104 | the descending view is strictly decreasing and holds the same elements with the same multiplicities |
| OrderedSets.ReverseOfConcat | subprojects/core/src/main/java/org/gradle/execution/plan/TaskNode.java:149-157 | reversing a concatenation reverses each part and swaps their order |
| OrderedSets.Append | subprojects/core/src/main/java/org/gradle/execution/plan/FinalizerGroup.java:78-81 | `LinkedHashSet.add` keeps the set duplicate-free, keeps every earlier member in place, appends a new member at the end and ignores a present one |
| OrderedSets.WithoutKeepsShape | subprojects/core/src/main/java/org/gradle/execution/plan/FinalizerGroup.java:83-86 | removal keeps a duplicate-free sequence duplicate-free and an increasing one increasing |
| OrderedSets.WithoutRemovesOne | subprojects/core/src/main/java/org/gradle/execution/plan/FinalizerGroup.java:83-86 | removing a member deletes exactly its one occurrence; the members before and after it keep their order |
| NodeGroups.DefaultGroupAnswers | subprojects/core/src/main/java/org/gradle/execution/plan/NodeGroup.java:28-51 | the default group has no ordinal and no finalizer and is not an entry point; a finalizer group is never an entry point; only a finalizer group answers `asFinalizer` with itself; an ordinal group answers `asOrdinal` with itself |
| NodeGroups.AsOrdinal | subprojects/core/src/main/java/org/gradle/execution/plan/NodeGroup.java:34-46 | `asOrdinal()` is none for the default group, the group itself for an ordinal group, and the inherited ordinal, possibly none, for a finalizer group |
| NodeGroups.AsFinalizer | subprojects/core/src/main/java/org/gradle/execution/plan/NodeGroup.java:48-51 | `asFinalizer()` answers a group exactly when the group is a finalizer group, and then the group itself |
| NodeGroups.IsEntryPoint | subprojects/core/src/main/java/org/gradle/execution/plan/NodeGroup.java:41-43 | only an ordinal group can be an entry point, and then by its own answer; the default and finalizer groups keep the base `false` |
| NodeGroups.Inherit | subprojects/core/src/main/java/org/gradle/execution/plan/FinalizerGroup.java:71-76 | the inherited ordinal is the old one or the source's; a source with no ordinal changes nothing; the result never falls below either; it changes only when the old one is absent or strictly smaller |
| NodeGroups.InheritIdempotent | subprojects/core/src/main/java/org/gradle/execution/plan/FinalizerGroup.java:71-76 | inheriting twice from the same source equals inheriting once |
| NodeGroups.InheritNeverDowngrades | subprojects/core/src/main/java/org/gradle/execution/plan/FinalizerGroup.java:71-76 | an equal or smaller source ordinal leaves the ordinal alone, and a strictly larger one replaces it |
| NodeGroups.FinalizerGroup.constructor | subprojects/core/src/main/java/org/gradle/execution/plan/FinalizerGroup.java:34-38 | a new group's only member is its finalizer node, and it takes the source group's ordinal, possibly none |
| NodeGroups.FinalizerGroup.MaybeInheritFrom | subprojects/core/src/main/java/org/gradle/execution/plan/FinalizerGroup.java:71-76 | the ordinal becomes `Inherit(old ordinal, source's ordinal)` and nothing else changes |
| NodeGroups.FinalizerGroup.AddMember | subprojects/core/src/main/java/org/gradle/execution/plan/FinalizerGroup.java:78-81 | the members become `Append(old members, n)` and stay duplicate-free |
| NodeGroups.FinalizerGroup.RemoveMember | subprojects/core/src/main/java/org/gradle/execution/plan/FinalizerGroup.java:83-86 | the members become `Without(old members, n)` and stay duplicate-free |
| NodeGroups.FinalizerGroup.VisitAllMembers | subprojects/core/src/main/java/org/gradle/execution/plan/FinalizerGroup.java:88-92 | the visitor sees exactly the members, once each, in insertion order |
| NodeGroups.AddMemberTo | subprojects/core/src/main/java/org/gradle/execution/plan/NodeGroup.java:64-65 | dispatch on the group: only a finalizer group records a new member; other groups change nothing |
| NodeGroups.RemoveMemberFrom | subprojects/core/src/main/java/org/gradle/execution/plan/NodeGroup.java:67-68 | dispatch on the group: only a finalizer group removes the member; other groups change nothing |
| OrdinalNodes.GetType | subprojects/core/src/main/java/org/gradle/execution/plan/OrdinalNode.java:93-95 | `getType()` is the type the node was built with, the ordinal alongside it determining the node |
| OrdinalNodes.GetOrdinal | subprojects/core/src/main/java/org/gradle/execution/plan/OrdinalNode.java:97-99 | `getOrdinal()` is the ordinal the node was built with, the type alongside it determining the node |
| OrdinalNodes.GetNodeFailure | subprojects/core/src/main/java/org/gradle/execution/plan/OrdinalNode.java:50-54 | an ordinal node never has a failure |
| OrdinalNodes.RethrowNodeFailure | subprojects/core/src/main/java/org/gradle/execution/plan/OrdinalNode.java:56-57 | rethrowing the failure never throws anything |
| OrdinalNodes.ResolveDependencies | subprojects/core/src/main/java/org/gradle/execution/plan/OrdinalNode.java:59-60 | resolving dependencies hands no node to the hard-successor action |
| OrdinalNodes.GetProjectToLock | subprojects/core/src/main/java/org/gradle/execution/plan/OrdinalNode.java:62-66 | an ordinal node locks no project |
| OrdinalNodes.GetOwningProject | subprojects/core/src/main/java/org/gradle/execution/plan/OrdinalNode.java:68-72 | an ordinal node belongs to no project |
| OrdinalNodes.GetResourcesToLock | subprojects/core/src/main/java/org/gradle/execution/plan/OrdinalNode.java:74-77 | an ordinal node locks no resources |
| OrdinalNodes.Execute | subprojects/core/src/main/java/org/gradle/execution/plan/OrdinalNode.java:90-91 | executing an ordinal node does no work: the method may modify nothing and returns nothing |
| OrdinalNodes.CompareTo | subprojects/core/src/main/java/org/gradle/execution/plan/OrdinalNode.java:85-88 | `compareTo` answers -1, whatever the other node is |
| OrdinalNodes.CompareToIsNotAntisymmetric | subprojects/core/src/main/java/org/gradle/execution/plan/OrdinalNode.java:85-88 | `compareTo` answers -1 against itself and in both directions of any pair |
| OrdinalNodes.IntToString | subprojects/core/src/main/java/org/gradle/execution/plan/OrdinalNode.java:82 | the ordinal is written as `String.valueOf(int)` writes it: a minus sign exactly for negative values, and no leading zero unless the text is "0" |
| OrdinalNodes.IntRoundTrip | subprojects/core/src/main/java/org/gradle/execution/plan/OrdinalNode.java:82 | the decimal text of the ordinal reads back as the ordinal, negative values included |
| OrdinalNodes.ToString | subprojects/core/src/main/java/org/gradle/execution/plan/OrdinalNode.java:79-83 | the display name (lower-cased type name, " locations for task group ", the ordinal in decimal) parses back to exactly the node's type and ordinal |
| OrdinalNodes.ToStringInjective | subprojects/core/src/main/java/org/gradle/execution/plan/OrdinalNode.java:81-83 | two ordinal nodes with the same display name have the same type and ordinal |
| TaskNodes.AddMustEdge | subprojects/core/src/main/java/org/gradle/execution/plan/TaskNode.java:110-114 | after `a.addMustSuccessor(b)`, b is among a's must-successors and a among b's must-predecessors; no other edge or field of any node changes |
| TaskNodes.AddFinalizerEdge | subprojects/core/src/main/java/org/gradle/execution/plan/TaskNode.java:92-95 | on a task, `addFinalizer(f)` makes f one of its finalizers and changes no other finalizer set; on any other node the graph is unchanged; no other field of any node changes |
| TaskNodes.WithFinalizingSuccessor | subprojects/core/src/main/java/org/gradle/execution/plan/TaskNode.java:117 | the first step of `addFinalizingSuccessor` adds exactly the one finalizing-successor edge and changes nothing else |
| TaskNodes.AddFinalizingEdge | subprojects/core/src/main/java/org/gradle/execution/plan/TaskNode.java:116-119 | after `f.addFinalizingSuccessor(t)`, t is a finalizing successor of f and, when t is a task, f is a finalizer of t; no other edge or field of any node changes |
| TaskNodes.AddShouldEdge | subprojects/core/src/main/java/org/gradle/execution/plan/TaskNode.java:121-124 | `addShouldSuccessor` adds exactly that one should edge; no other edge or field of any node changes |
| TaskNodes.RemoveShouldEdge | subprojects/core/src/main/java/org/gradle/execution/plan/TaskNode.java:126-128 | `removeShouldSuccessor` removes exactly that one should edge; no other edge or field of any node changes |
| TaskNodes.ShouldEdgeRoundTrip | subprojects/core/src/main/java/org/gradle/execution/plan/TaskNode.java:121-128 | removing a should-successor that was just added, and was not there before, restores the graph |
| TaskNodes.AddDependencyEdge | subprojects/core/src/main/java/org/gradle/execution/plan/OrdinalNode.java:104 | `addDependencySuccessor` adds exactly one base dependency edge and changes nothing else |
| TaskNodes.SetGroup | subprojects/core/src/main/java/org/gradle/execution/plan/TaskNode.java:201 | `setGroup` moves the one node to the new group; no other node and no other field changes |
| TaskNodes.AddNodeKeepsGraphOk | subprojects/core/src/main/java/org/gradle/execution/plan/TaskNode.java:29-33 | a new node with empty edge sets and a fresh index keeps the invariant and the finalizer mirror |
| TaskNodes.AddMustEdgeKeepsGraphOk | subprojects/core/src/main/java/org/gradle/execution/plan/TaskNode.java:110-114 | adding a must edge between two tasks keeps must-successors and must-predecessors each other's inverse, keeps the rest of the invariant, and keeps the finalizer mirror |
| TaskNodes.AddFinalizerEdgeKeepsGraphOk | subprojects/core/src/main/java/org/gradle/execution/plan/TaskNode.java:92-95 | `addFinalizer` keeps the invariant |
| TaskNodes.WithFinalizingSuccessorKeepsGraphOk | subprojects/core/src/main/java/org/gradle/execution/plan/TaskNode.java:117 | adding a finalizing successor to a task keeps the invariant |
| TaskNodes.AddFinalizingEdgeKeepsGraphOk | subprojects/core/src/main/java/org/gradle/execution/plan/TaskNode.java:116-119 | `addFinalizingSuccessor` keeps the invariant |
| TaskNodes.AddFinalizingEdgeKeepsFinalizerMirror | subprojects/core/src/main/java/org/gradle/execution/plan/TaskNode.java:116-119 | `addFinalizingSuccessor` keeps finalizers and finalizing successors each other's inverse between tasks |
| TaskNodes.AddFinalizerAloneBreaksMirror | subprojects/core/src/main/java/org/gradle/execution/plan/TaskNode.java:92-95 | `addFinalizer` on its own breaks the finalizer mirror: two tasks with no edges are mirrored, and after `t.addFinalizer(f)` t lists f as a finalizer while f does not list t as a finalizing successor |
| TaskNodes.AddShouldEdgeKeepsGraphOk | subprojects/core/src/main/java/org/gradle/execution/plan/TaskNode.java:121-124 | adding a should edge keeps the invariant and the finalizer mirror |
| TaskNodes.RemoveShouldEdgeKeepsGraphOk | subprojects/core/src/main/java/org/gradle/execution/plan/TaskNode.java:126-128 | removing a should edge keeps the invariant and the finalizer mirror |
| TaskNodes.AddDependencyEdgeKeepsGraphOk | subprojects/core/src/main/java/org/gradle/execution/plan/OrdinalNode.java:104 | adding a base dependency edge between graph nodes keeps the invariant and the finalizer mirror |
| TaskNodes.WithDependenciesKeepsGraphOk | subprojects/core/src/main/java/org/gradle/execution/plan/OrdinalNode.java:101-105 | adding any set of graph nodes as base dependencies keeps the invariant and the finalizer mirror |
| TaskNodes.SetGroupKeepsGraphOk | subprojects/core/src/main/java/org/gradle/execution/plan/TaskNode.java:193-203 | moving a node to a group whose finalizer is a task of the graph keeps the invariant and the finalizer mirror |
| TaskNodes.HardSuccessorsInGraph | subprojects/core/src/main/java/org/gradle/execution/plan/TaskNode.java:140-147 | every hard successor of a node is a node of the graph |
| TaskNodes.FinalizedNodes | subprojects/core/src/main/java/org/gradle/execution/plan/FinalizerGroup.java:45-47 | with the finalizer edges mirrored, the finalized nodes of a finalizer task's group are exactly the tasks that list that finalizer among their finalizers |
| TaskNodes.FinalizingSuccessorsInReverseOrder | subprojects/core/src/main/java/org/gradle/execution/plan/TaskNode.java:102-104 | the descending view holds exactly the finalizing successors, once each, strictly decreasing |
| TaskNodes.GroupSuccessors | subprojects/core/src/main/java/org/gradle/execution/plan/FinalizerGroup.java:61-64 | a group's successors are strictly increasing; for a finalizer group they are exactly the finalized nodes, and the default and ordinal groups have none |
| TaskNodes.GroupSuccessorsInReverseOrder | subprojects/core/src/main/java/org/gradle/execution/plan/FinalizerGroup.java:66-69 | a group's reverse-order successors are strictly decreasing and hold exactly its successors |
| TaskNodes.AllSuccessors | subprojects/core/src/main/java/org/gradle/execution/plan/TaskNode.java:130-138 | a node is among all successors exactly when it is a should-successor, a group successor, a must-successor or a base dependency |
| TaskNodes.HardSuccessors | subprojects/core/src/main/java/org/gradle/execution/plan/TaskNode.java:140-147 | a node is a hard successor exactly when it is a group successor, a must-successor or a base dependency |
| TaskNodes.AllSuccessorsInReverseOrder | subprojects/core/src/main/java/org/gradle/execution/plan/TaskNode.java:149-157 | the reverse-order view holds exactly the nodes of the all-successors view |
| TaskNodes.HasHardSuccessor | subprojects/core/src/main/java/org/gradle/execution/plan/TaskNode.java:170-180 | a base dependency always counts; a node that is not a task counts only as a base dependency; a task counts exactly when it is a base dependency, a must-successor or a finalizing successor |
| TaskNodes.FinalizerGroupViews | subprojects/core/src/main/java/org/gradle/execution/plan/FinalizerGroup.java:45-69 | a finalizer group's finalized nodes are its finalizer's finalizing successors; its successors list them ascending and its reverse view is that list reversed, strictly descending, with the same elements |
| TaskNodes.HardSuccessorsDropShould | subprojects/core/src/main/java/org/gradle/execution/plan/TaskNode.java:130-147 | all successors are the should-successors followed by the hard successors, so every hard successor is a successor and every successor outside the should set is hard |
| TaskNodes.ReverseOrderIsReverse | subprojects/core/src/main/java/org/gradle/execution/plan/TaskNode.java:130-157 | the reverse-order view is exactly the all-successors view reversed, with the same elements and multiplicities |
| TaskNodes.HasHardSuccessorAgainstView | subprojects/core/src/main/java/org/gradle/execution/plan/TaskNode.java:170-180 | `hasHardSuccessor` accepts only hard successors or the node's own finalizing successors; it accepts every task in the must or base part of the hard view; for a finalizer in its own group it agrees with the hard view on tasks |
| TaskNodes.DependenciesComplete | subprojects/core/src/main/java/org/gradle/execution/plan/TaskNode.java:35-57 | dependency completion needs the base check, every must-successor complete and, in a finalizer group, every finalized node complete |
| TaskNodes.DependenciesSuccessful | subprojects/core/src/main/java/org/gradle/execution/plan/TaskNode.java:59-77 | dependency success needs the base check and, in a finalizer group, some finalized node that was executed |
| TaskNodes.MustSuccessorGatesCompletion | subprojects/core/src/main/java/org/gradle/execution/plan/TaskNode.java:41-45 | a must-successor that is not complete keeps its predecessor from being dependency-complete |
| TaskNodes.MustSuccessorOutcomeIsIrrelevant | subprojects/core/src/main/java/org/gradle/execution/plan/TaskNode.java:35-77 | outside a finalizer group, success is the base check alone, and completion is the base check plus every must-successor complete |
| TaskNodes.FinalizerWaitsForEveryFinalized | subprojects/core/src/main/java/org/gradle/execution/plan/TaskNode.java:47-54 | a node in a finalizer group is not dependency-complete while any finalized node is incomplete |
| TaskNodes.FinalizerRunsIfAnyFinalizedAttempted | subprojects/core/src/main/java/org/gradle/execution/plan/TaskNode.java:65-75 | in a finalizer group, once the base check holds, one finalized node that succeeded or failed makes the dependencies successful |
| TaskNodes.NothingFinalizedNeverSuccessful | subprojects/core/src/main/java/org/gradle/execution/plan/TaskNode.java:65-76 | a finalizer group with nothing finalized is never dependency-successful |
| TaskNodes.CheckAllComplete | subprojects/core/src/main/java/org/gradle/execution/plan/TaskNode.java:41-53 | the early-return loop answers true exactly when every node of the set is complete |
| TaskNodes.CheckAnyExecuted | subprojects/core/src/main/java/org/gradle/execution/plan/TaskNode.java:71-76 | the early-return loop answers true exactly when some node of the set was executed |
| TaskNodes.RequiredAmongSnoc | subprojects/core/src/main/java/org/gradle/execution/plan/OrdinalNode.java:103 | filtering on `isRequired` one more node adds that node exactly when it is required |
| TaskNodes.AddRequiredDependencies | subprojects/core/src/main/java/org/gradle/execution/plan/OrdinalNode.java:101-105 | the loop adds to the barrier's base dependencies exactly the required nodes of the list, and nothing else |
| TaskNodes.VisitEachOnce | subprojects/core/src/main/java/org/gradle/execution/plan/TaskNode.java:162-164 | iterating the must-predecessor hash set visits each element exactly once, in some order |
| TaskNodes.NodeGraph.constructor | subprojects/core/src/main/java/org/gradle/execution/plan/TaskNode.java:29-33 | an empty plan satisfies the invariant and the finalizer mirror |
| TaskNodes.NodeGraph.NewNode | subprojects/core/src/main/java/org/gradle/execution/plan/TaskNode.java:29-33 | a node joins with all five edge sets empty, in the default group; its index is fresh and sorts after every earlier node; the invariant holds |
| TaskNodes.NodeGraph.NewOrdinalNode | subprojects/core/src/main/java/org/gradle/execution/plan/OrdinalNode.java:45-48 | a new ordinal node is a fresh node, even when another has the same type and ordinal; it answers the constructor's type and ordinal |
| TaskNodes.NodeGraph.DoCheckDependenciesComplete | subprojects/core/src/main/java/org/gradle/execution/plan/TaskNode.java:35-57 | true exactly when the base check holds, every must-successor is complete and, in a finalizer group, every finalized node is complete |
| TaskNodes.NodeGraph.AllDependenciesSuccessful | subprojects/core/src/main/java/org/gradle/execution/plan/TaskNode.java:59-77 | true exactly when the base check holds and, in a finalizer group, at least one finalized node was executed |
| TaskNodes.NodeGraph.DeprecateLifecycleHookReferencingNonLocalTask | subprojects/core/src/main/java/org/gradle/execution/plan/TaskNode.java:184-191 | one message, "Using <hook> to reference tasks from another build", is logged exactly when the target is a task from another build |
| TaskNodes.NodeGraph.AddMustSuccessor | subprojects/core/src/main/java/org/gradle/execution/plan/TaskNode.java:110-114 | logs the `mustRunAfter` deprecation for a task from another build, then records both ends of the must edge; the invariant holds; the finalizer mirror is kept when it held before |
| TaskNodes.NodeGraph.AddFinalizer | subprojects/core/src/main/java/org/gradle/execution/plan/TaskNode.java:92-95 | the graph becomes `AddFinalizerEdge` of the old one, and the invariant holds (the finalizer mirror is not promised: see `AddFinalizerAloneBreaksMirror`) |
| TaskNodes.NodeGraph.AddFinalizingSuccessor | subprojects/core/src/main/java/org/gradle/execution/plan/TaskNode.java:116-119 | records the finalizing successor and the reverse finalizer edge; keeps the invariant and the finalizer mirror |
| TaskNodes.NodeGraph.AddShouldSuccessor | subprojects/core/src/main/java/org/gradle/execution/plan/TaskNode.java:121-124 | logs the `shouldRunAfter` deprecation for a task from another build, then adds the should edge; the invariant holds; the finalizer mirror is kept when it held before |
| TaskNodes.NodeGraph.RemoveShouldSuccessor | subprojects/core/src/main/java/org/gradle/execution/plan/TaskNode.java:126-128 | removes exactly the should edge; the invariant holds; the finalizer mirror is kept when it held before |
| TaskNodes.NodeGraph.AddDependencySuccessor | subprojects/core/src/main/java/org/gradle/execution/plan/OrdinalNode.java:104 | adds one base dependency edge; the invariant holds; the finalizer mirror is kept when it held before |
| TaskNodes.NodeGraph.AddDependenciesFrom | subprojects/core/src/main/java/org/gradle/execution/plan/OrdinalNode.java:101-105 | the barrier's base dependencies grow by exactly the required hard successors of the task; nothing else changes; the invariant holds; the finalizer mirror is kept when it held before |
| TaskNodes.NodeGraph.MaybeInheritGroupAsFinalizer | subprojects/core/src/main/java/org/gradle/execution/plan/TaskNode.java:193-203 | a node in a finalizer group keeps that group object and its members, and only the group's ordinal may rise; any other node moves to a new finalizer group owned by itself, holding only itself, with the source's ordinal; the finalizer mirror is kept when it held before |
| TaskNodes.NodeGraph.MaybeInheritGroupAsFinalizerTwice | subprojects/core/src/main/java/org/gradle/execution/plan/TaskNode.java:193-203 | a second call with the same source changes nothing more than the first did |
| TaskNodes.NodeGraph.MembersOfFinalizersSnoc | subprojects/core/src/main/java/org/gradle/execution/plan/TaskNode.java:165-167 | visiting one more finalizer appends its group's members |
| TaskNodes.NodeGraph.VisitFinalizerGroups | subprojects/core/src/main/java/org/gradle/execution/plan/TaskNode.java:165-167 | the finalizer loop visits each finalizer's group members, the finalizers in order |
| TaskNodes.NodeGraph.VisitAllDependents | subprojects/core/src/main/java/org/gradle/execution/plan/TaskNode.java:159-168 | visits what the base node visits, then each must-predecessor exactly once, then the members of every finalizer's group, finalizers in ascending order |

## Left out

- The base `Node` class is not part of this model. Each node records these of its answers as fields:
  - the base dependency checks;
  - the base dependency successors, which serve as `super.getAllSuccessors()`, `super.getHardSuccessors()` and, reversed, `super.getAllSuccessorsInReverseOrder()`;
  - `super.hasHardSuccessor`, taken as membership in the base successors;
  - `isRequired`;
  - the execution state.

  No operation of the model changes the state or the base answers. The scheduler sets them outside these files. The lemmas about the dependency checks hold for every closed arena.
- TaskNodes.AddFinalizerEdge: `Node.addFinalizer` on a node that is not a task is not part of this model, and is treated as a no-op. On a task the contract gives the full effect.
- The base node's dependency-predecessor bookkeeping in `addDependencySuccessor` is not part of this model. Only the successor edge is recorded.
- `OrdinalGroup` is not part of this model. It is taken to carry its integer ordinal and its own `isEntryPoint` answer, to answer `asOrdinal` with itself, and to keep the `NodeGroup` defaults otherwise. Its `toString` is left out, and so is that of `FinalizerGroup`, since it needs `OrdinalGroup`'s text. The default group's `toString` is the constant display text "default group"; no modelled operation uses it.
- `TaskInAnotherBuild` is a flag on task nodes. The deprecation is recorded as its message only. The logger's "will become an error" and upgrade-guide decorations are external calls.
- `getTask`, `getLifecycleSuccessors` and `setLifecycleSuccessors` are abstract hooks with no behaviour in these files.
- The getters that return an edge set (`getMustSuccessors`, `getFinalizers`, `getFinalizingSuccessors`, `getShouldSuccessors`) are plain field reads of the node record.
- Iterables are not modelled as live views. `Iterables.concat` and `descendingSet()` return live views in Java; the model computes each view as a sequence from the current arena.
- Aliasing and update in place of the per-node Java objects are not modelled. Nodes live in a map of records, so a mutator replaces records instead of updating objects. `FinalizerGroup` remains a shared, mutable class.
- TaskNodes.NodeGraph.VisitAllDependents: the order of a `HashSet` iteration is not fixed, so `VisitEachOnce` picks the must-predecessors in an unspecified order. The contract promises only that each is visited once.
- Visitor callbacks are not modelled as calls. `visitAllDependents` takes what the base class visits as a parameter (`baseVisits`), and the result lists the visited nodes in order.
- `getFinalizerGroup()` is taken to be the finalizer's current group, which must be a finalizer group. The Java code dereferences it without a check.
- `VisitFinalizerGroups` reads each group's `members` directly. Those are exactly what `FinalizerGroup.VisitAllMembers` visits.
- Ordinals are unbounded integers, not the 32-bit Java `int`. Nothing here does arithmetic on them, and every 32-bit value renders and compares the same.
- Concurrency, resource locks and execution are out of scope. The ordinal node's overrides of them do nothing: `RethrowNodeFailure` throws nothing, `ResolveDependencies` hands no node on, and `Execute` changes nothing.
- Every ordered set orders nodes by index, barriers included. In Java, `OrdinalNode.compareTo` answers -1 against every node. So a barrier added to a `TreeSet` sorts first, a second add inserts it again, and `contains` and `remove` never find it. The model's sets hold a barrier once, find it, and iterate it at its index (after every older node). This affects a barrier among a node's base dependency successors, should-successors or finalizing successors.

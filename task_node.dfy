/**
 * The planner's node graph as an arena addressed by node index.
 *
 * Each node is one record holding the facts of the base `Node` class that
 * `TaskNode` relies on (that class body is not part of this model, so its
 * answers are recorded as data) and the five edge sets of `TaskNode`. The
 * `NodeGraph` class owns the arena and carries the `TaskNode` mutators, the
 * dependency checks and `OrdinalNode.addDependenciesFrom`; the successor
 * views, which only read, are functions of the arena.
 */
module TaskNodes {
  import opened Wrappers
  import opened OrderedSets
  import opened NodeGroups
  import opened OrdinalNodes

  /** A node's execution state, as the scheduler moves it along. */
  datatype ExecutionState = Pending | Executing | Succeeded | Failed | Skipped {
    /** `isComplete()`: finished, whatever the outcome. */
    predicate IsComplete() { Succeeded? || Failed? || Skipped? }
    /** `isExecuted()`: it was attempted, whether it succeeded or failed. */
    predicate IsExecuted() { Succeeded? || Failed? }
  }

  datatype NodeKind =
    | Task(inAnotherBuild: bool)   // a `TaskNode`; `inAnotherBuild` for `TaskInAnotherBuild`
    | Barrier(identity: OrdinalNode)
    | OtherNode                    // any other kind of `Node`

  /**
   * One node. The `TreeSet`s are sets of node indices iterated `Ascending`;
   * `mustPredecessors` is a `HashSet`, iterated in no particular order.
   */
  datatype Node = Node(
    kind: NodeKind,
    state: ExecutionState,
    required: bool,
    baseDependenciesComplete: bool,    // `super.doCheckDependenciesComplete()`
    baseDependenciesSuccessful: bool,  // `super.allDependenciesSuccessful()`
    dependencySuccessors: set<NodeId>, // the base node's own successors, a `TreeSet`
    group: NodeGroup,
    mustSuccessors: set<NodeId>,
    mustPredecessors: set<NodeId>,
    shouldSuccessors: set<NodeId>,
    finalizers: set<NodeId>,
    finalizingSuccessors: set<NodeId>)

  type Nodes = map<NodeId, Node>

  /** A node as it joins the plan: pending, in the default group, with every edge set empty. */
  function Fresh(k: NodeKind, isRequired: bool): Node {
    Node(k, Pending, isRequired, true, true, {}, Default, {}, {}, {}, {}, {})
  }

  predicate IsTask(nodes: Nodes, n: NodeId) {
    n in nodes && nodes[n].kind.Task?
  }

  // ------------------------------------------------------------ invariant

  /**
   * A node's edges lead to nodes of the graph, only a task carries task
   * edges, and a finalizer group belongs to a task of the graph.
   */
  ghost predicate NodeOk(nodes: Nodes, d: Node) {
    && d.dependencySuccessors <= nodes.Keys
    && d.mustSuccessors <= nodes.Keys && d.mustPredecessors <= nodes.Keys
    && d.shouldSuccessors <= nodes.Keys
    && d.finalizers <= nodes.Keys && d.finalizingSuccessors <= nodes.Keys
    && (!d.kind.Task? ==> d.mustSuccessors == d.mustPredecessors == d.shouldSuccessors == {})
    && (!d.kind.Task? ==> d.finalizers == d.finalizingSuccessors == {})
    && (d.group.Finalizer? ==> IsTask(nodes, d.group.finalizer.node))
  }

  ghost predicate Closed(nodes: Nodes) {
    forall n {:trigger nodes[n]} :: n in nodes ==> NodeOk(nodes, nodes[n])
  }

  /** `mustPredecessors` is the inverse of `mustSuccessors`. */
  ghost predicate MustEdgesMirrored(nodes: Nodes) {
    forall a, b {:trigger b in nodes[a].mustSuccessors} {:trigger a in nodes[b].mustPredecessors} ::
      a in nodes && b in nodes ==> (b in nodes[a].mustSuccessors <==> a in nodes[b].mustPredecessors)
  }

  /** Between task nodes, `finalizers` is the inverse of `finalizingSuccessors`. */
  ghost predicate FinalizerEdgesMirrored(nodes: Nodes) {
    forall a, b {:trigger b in nodes[a].finalizingSuccessors} {:trigger a in nodes[b].finalizers} ::
      IsTask(nodes, a) && IsTask(nodes, b) ==> (b in nodes[a].finalizingSuccessors <==> a in nodes[b].finalizers)
  }

  /** Every index in use is below the next one to hand out. */
  ghost predicate Below(nodes: Nodes, nextId: nat) {
    forall n :: n in nodes ==> n < nextId
  }

  ghost predicate GraphOk(nodes: Nodes, nextId: nat) {
    Below(nodes, nextId) && Closed(nodes) && MustEdgesMirrored(nodes)
  }

  // ------------------------------------------------------------ mutations

  /** `a.addMustSuccessor(b)` on the arena: the edge is recorded at both ends. */
  function AddMustEdge(nodes: Nodes, a: NodeId, b: NodeId): (r: Nodes)
    requires a in nodes && b in nodes
    ensures r.Keys == nodes.Keys
    ensures forall n, x {:trigger x in r[n].mustSuccessors} :: n in nodes ==>
              (x in r[n].mustSuccessors <==> x in nodes[n].mustSuccessors || (n == a && x == b))
    ensures forall n, x {:trigger x in r[n].mustPredecessors} :: n in nodes ==>
              (x in r[n].mustPredecessors <==> x in nodes[n].mustPredecessors || (n == b && x == a))
    ensures forall n {:trigger r[n]} :: n in nodes ==>
              r[n] == nodes[n].(mustSuccessors := r[n].mustSuccessors, mustPredecessors := r[n].mustPredecessors)
  {
    var withSuccessor := nodes[a := nodes[a].(mustSuccessors := nodes[a].mustSuccessors + {b})];
    withSuccessor[b := withSuccessor[b].(mustPredecessors := withSuccessor[b].mustPredecessors + {a})]
  }

  /** `t.addFinalizer(f)`: a task records `f` among its finalizers; any other node keeps nothing. */
  function AddFinalizerEdge(nodes: Nodes, t: NodeId, f: NodeId): (r: Nodes)
    requires t in nodes
    ensures r.Keys == nodes.Keys
    ensures !IsTask(nodes, t) ==> r == nodes
    ensures IsTask(nodes, t) ==> forall n, x {:trigger x in r[n].finalizers} :: n in nodes ==>
              (x in r[n].finalizers <==> x in nodes[n].finalizers || (n == t && x == f))
    ensures forall n {:trigger r[n]} :: n in nodes ==> r[n] == nodes[n].(finalizers := r[n].finalizers)
  {
    if nodes[t].kind.Task? then nodes[t := nodes[t].(finalizers := nodes[t].finalizers + {f})] else nodes
  }

  /** The first half of `f.addFinalizingSuccessor(t)`: `t` joins `f`'s finalizing successors. */
  function WithFinalizingSuccessor(nodes: Nodes, f: NodeId, t: NodeId): (r: Nodes)
    requires f in nodes
    ensures r.Keys == nodes.Keys
    ensures forall n, x {:trigger x in r[n].finalizingSuccessors} :: n in nodes ==>
              (x in r[n].finalizingSuccessors <==> x in nodes[n].finalizingSuccessors || (n == f && x == t))
    ensures forall n {:trigger r[n]} :: n in nodes ==>
              r[n] == nodes[n].(finalizingSuccessors := r[n].finalizingSuccessors)
  {
    nodes[f := nodes[f].(finalizingSuccessors := nodes[f].finalizingSuccessors + {t})]
  }

  /**
   * `f.addFinalizingSuccessor(t)` records `t` among `f`'s finalizing successors
   * and, when `t` is a task, `f` among `t`'s finalizers; nothing else changes.
   */
  function AddFinalizingEdge(nodes: Nodes, f: NodeId, t: NodeId): (r: Nodes)
    requires f in nodes && t in nodes
    ensures r.Keys == nodes.Keys
    ensures forall n, x {:trigger x in r[n].finalizingSuccessors} :: n in nodes ==>
              (x in r[n].finalizingSuccessors <==> x in nodes[n].finalizingSuccessors || (n == f && x == t))
    ensures forall n, x {:trigger x in r[n].finalizers} :: n in nodes ==>
              (x in r[n].finalizers <==> x in nodes[n].finalizers || (n == t && x == f && IsTask(nodes, t)))
    ensures forall n {:trigger r[n]} :: n in nodes ==>
              r[n] == nodes[n].(finalizingSuccessors := r[n].finalizingSuccessors, finalizers := r[n].finalizers)
  {
    AddFinalizerEdge(WithFinalizingSuccessor(nodes, f, t), t, f)
  }

  /** `a.addShouldSuccessor(b)`: one should edge more, nothing else. */
  function AddShouldEdge(nodes: Nodes, a: NodeId, b: NodeId): (r: Nodes)
    requires a in nodes
    ensures r.Keys == nodes.Keys
    ensures forall n, x {:trigger x in r[n].shouldSuccessors} :: n in nodes ==>
              (x in r[n].shouldSuccessors <==> x in nodes[n].shouldSuccessors || (n == a && x == b))
    ensures forall n {:trigger r[n]} :: n in nodes ==> r[n] == nodes[n].(shouldSuccessors := r[n].shouldSuccessors)
  {
    nodes[a := nodes[a].(shouldSuccessors := nodes[a].shouldSuccessors + {b})]
  }

  /** `a.removeShouldSuccessor(b)`: one should edge less, nothing else. */
  function RemoveShouldEdge(nodes: Nodes, a: NodeId, b: NodeId): (r: Nodes)
    requires a in nodes
    ensures r.Keys == nodes.Keys
    ensures forall n, x {:trigger x in r[n].shouldSuccessors} :: n in nodes ==>
              (x in r[n].shouldSuccessors <==> x in nodes[n].shouldSuccessors && !(n == a && x == b))
    ensures forall n {:trigger r[n]} :: n in nodes ==> r[n] == nodes[n].(shouldSuccessors := r[n].shouldSuccessors)
  {
    nodes[a := nodes[a].(shouldSuccessors := nodes[a].shouldSuccessors - {b})]
  }

  /** The base node's `addDependencySuccessor` (its class body is not part of this model): one edge more. */
  function AddDependencyEdge(nodes: Nodes, o: NodeId, y: NodeId): (r: Nodes)
    requires o in nodes
    ensures r.Keys == nodes.Keys
    ensures forall n, x {:trigger x in r[n].dependencySuccessors} :: n in nodes ==>
              (x in r[n].dependencySuccessors <==> x in nodes[n].dependencySuccessors || (n == o && x == y))
    ensures forall n {:trigger r[n]} :: n in nodes ==>
              r[n] == nodes[n].(dependencySuccessors := r[n].dependencySuccessors)
  {
    nodes[o := nodes[o].(dependencySuccessors := nodes[o].dependencySuccessors + {y})]
  }

  /** The base node's `setGroup`: `n` moves to `g`, nothing else changes. */
  function SetGroup(nodes: Nodes, n: NodeId, g: NodeGroup): (r: Nodes)
    requires n in nodes
    ensures r.Keys == nodes.Keys
    ensures r[n].group == g
    ensures forall m {:trigger r[m]} :: m in nodes ==> r[m] == nodes[m].(group := r[m].group)
    ensures forall m {:trigger r[m]} :: m in nodes && m != n ==> r[m] == nodes[m]
  {
    nodes[n := nodes[n].(group := g)]
  }

  /** Adding a should edge and removing it again restores the node when the edge was not there before. */
  lemma ShouldEdgeRoundTrip(nodes: Nodes, a: NodeId, b: NodeId)
    requires a in nodes && b !in nodes[a].shouldSuccessors
    ensures RemoveShouldEdge(AddShouldEdge(nodes, a, b), a, b) == nodes
  {
    assert nodes[a].shouldSuccessors + {b} - {b} == nodes[a].shouldSuccessors;
  }

  // ------------------------------------------ the mutations keep the invariant

  /** A fresh index that sorts after every node joins with no edges; nothing else changes. */
  lemma AddNodeKeepsGraphOk(nodes: Nodes, nextId: nat, k: NodeKind, isRequired: bool)
    requires GraphOk(nodes, nextId)
    ensures GraphOk(nodes[nextId := Fresh(k, isRequired)], nextId + 1)
    ensures FinalizerEdgesMirrored(nodes) ==> FinalizerEdgesMirrored(nodes[nextId := Fresh(k, isRequired)])
  {
    var r := nodes[nextId := Fresh(k, isRequired)];
    forall n | n in r ensures NodeOk(r, r[n]) {
      if n != nextId {
        assert NodeOk(nodes, nodes[n]);
      }
    }
    forall a, b | a in r && b in r
      ensures b in r[a].mustSuccessors <==> a in r[b].mustPredecessors
    {
      if a != nextId && b != nextId {
        assert b in nodes[a].mustSuccessors <==> a in nodes[b].mustPredecessors;
      } else if a != nextId {
        assert NodeOk(nodes, nodes[a]);
      } else if b != nextId {
        assert NodeOk(nodes, nodes[b]);
      }
    }
    if FinalizerEdgesMirrored(nodes) {
      forall a, b | IsTask(r, a) && IsTask(r, b)
        ensures b in r[a].finalizingSuccessors <==> a in r[b].finalizers
      {
        if a != nextId && b != nextId {
          assert b in nodes[a].finalizingSuccessors <==> a in nodes[b].finalizers;
        } else if a != nextId {
          assert NodeOk(nodes, nodes[a]);
        } else if b != nextId {
          assert NodeOk(nodes, nodes[b]);
        }
      }
    }
  }

  lemma AddMustEdgeKeepsGraphOk(nodes: Nodes, nextId: nat, a: NodeId, b: NodeId)
    requires GraphOk(nodes, nextId) && IsTask(nodes, a) && IsTask(nodes, b)
    ensures GraphOk(AddMustEdge(nodes, a, b), nextId)
    ensures FinalizerEdgesMirrored(nodes) ==> FinalizerEdgesMirrored(AddMustEdge(nodes, a, b))
  {
    var r := AddMustEdge(nodes, a, b);
    forall n | n in r ensures NodeOk(r, r[n]) {
      assert NodeOk(nodes, nodes[n]);
    }
    forall x, y | x in r && y in r
      ensures y in r[x].mustSuccessors <==> x in r[y].mustPredecessors
    {
      assert y in nodes[x].mustSuccessors <==> x in nodes[y].mustPredecessors;
    }
    if FinalizerEdgesMirrored(nodes) {
      forall x, y | IsTask(r, x) && IsTask(r, y)
        ensures y in r[x].finalizingSuccessors <==> x in r[y].finalizers
      {
        assert y in nodes[x].finalizingSuccessors <==> x in nodes[y].finalizers;
      }
    }
  }

  lemma AddFinalizerEdgeKeepsGraphOk(nodes: Nodes, nextId: nat, t: NodeId, f: NodeId)
    requires GraphOk(nodes, nextId) && t in nodes && f in nodes
    ensures GraphOk(AddFinalizerEdge(nodes, t, f), nextId)
  {
    var r := AddFinalizerEdge(nodes, t, f);
    forall n | n in r ensures NodeOk(r, r[n]) {
      assert NodeOk(nodes, nodes[n]);
    }
    forall x, y | x in r && y in r
      ensures y in r[x].mustSuccessors <==> x in r[y].mustPredecessors
    {
      assert y in nodes[x].mustSuccessors <==> x in nodes[y].mustPredecessors;
    }
  }

  lemma WithFinalizingSuccessorKeepsGraphOk(nodes: Nodes, nextId: nat, f: NodeId, t: NodeId)
    requires GraphOk(nodes, nextId) && IsTask(nodes, f) && t in nodes
    ensures GraphOk(WithFinalizingSuccessor(nodes, f, t), nextId)
  {
    var r := WithFinalizingSuccessor(nodes, f, t);
    forall n | n in r ensures NodeOk(r, r[n]) {
      assert NodeOk(nodes, nodes[n]);
    }
    forall x, y | x in r && y in r
      ensures y in r[x].mustSuccessors <==> x in r[y].mustPredecessors
    {
      assert y in nodes[x].mustSuccessors <==> x in nodes[y].mustPredecessors;
    }
  }

  lemma AddFinalizingEdgeKeepsGraphOk(nodes: Nodes, nextId: nat, f: NodeId, t: NodeId)
    requires GraphOk(nodes, nextId) && IsTask(nodes, f) && t in nodes
    ensures GraphOk(AddFinalizingEdge(nodes, f, t), nextId)
  {
    WithFinalizingSuccessorKeepsGraphOk(nodes, nextId, f, t);
    AddFinalizerEdgeKeepsGraphOk(WithFinalizingSuccessor(nodes, f, t), nextId, t, f);
  }

  /** Adding a finalizing successor keeps the two finalizer relations each other's inverse. */
  lemma AddFinalizingEdgeKeepsFinalizerMirror(nodes: Nodes, f: NodeId, t: NodeId)
    requires FinalizerEdgesMirrored(nodes) && IsTask(nodes, f) && t in nodes
    ensures FinalizerEdgesMirrored(AddFinalizingEdge(nodes, f, t))
  {
    var r := AddFinalizingEdge(nodes, f, t);
    forall x, y | IsTask(r, x) && IsTask(r, y)
      ensures y in r[x].finalizingSuccessors <==> x in r[y].finalizers
    {
      assert y in nodes[x].finalizingSuccessors <==> x in nodes[y].finalizers;
    }
  }

  /**
   * `addFinalizer` on its own does not keep the finalizer mirror: it records
   * the finalizer without the matching finalizing successor. Only the pair
   * made by `addFinalizingSuccessor` keeps it.
   */
  lemma AddFinalizerAloneBreaksMirror()
    ensures var nodes := map[0 := Fresh(Task(false), true), 1 := Fresh(Task(false), true)];
            FinalizerEdgesMirrored(nodes) && !FinalizerEdgesMirrored(AddFinalizerEdge(nodes, 0, 1))
  {
    var nodes := map[0 := Fresh(Task(false), true), 1 := Fresh(Task(false), true)];
    var r := AddFinalizerEdge(nodes, 0, 1);
    assert 1 in r[0].finalizers && 0 !in r[1].finalizingSuccessors;
  }

  lemma AddShouldEdgeKeepsGraphOk(nodes: Nodes, nextId: nat, a: NodeId, b: NodeId)
    requires GraphOk(nodes, nextId) && IsTask(nodes, a) && b in nodes
    ensures GraphOk(AddShouldEdge(nodes, a, b), nextId)
    ensures FinalizerEdgesMirrored(nodes) ==> FinalizerEdgesMirrored(AddShouldEdge(nodes, a, b))
  {
    var r := AddShouldEdge(nodes, a, b);
    forall n | n in r ensures NodeOk(r, r[n]) {
      assert NodeOk(nodes, nodes[n]);
    }
    forall x, y | x in r && y in r
      ensures y in r[x].mustSuccessors <==> x in r[y].mustPredecessors
    {
      assert y in nodes[x].mustSuccessors <==> x in nodes[y].mustPredecessors;
    }
    if FinalizerEdgesMirrored(nodes) {
      forall x, y | IsTask(r, x) && IsTask(r, y)
        ensures y in r[x].finalizingSuccessors <==> x in r[y].finalizers
      {
        assert y in nodes[x].finalizingSuccessors <==> x in nodes[y].finalizers;
      }
    }
  }

  lemma RemoveShouldEdgeKeepsGraphOk(nodes: Nodes, nextId: nat, a: NodeId, b: NodeId)
    requires GraphOk(nodes, nextId) && a in nodes
    ensures GraphOk(RemoveShouldEdge(nodes, a, b), nextId)
    ensures FinalizerEdgesMirrored(nodes) ==> FinalizerEdgesMirrored(RemoveShouldEdge(nodes, a, b))
  {
    var r := RemoveShouldEdge(nodes, a, b);
    forall n | n in r ensures NodeOk(r, r[n]) {
      assert NodeOk(nodes, nodes[n]);
    }
    forall x, y | x in r && y in r
      ensures y in r[x].mustSuccessors <==> x in r[y].mustPredecessors
    {
      assert y in nodes[x].mustSuccessors <==> x in nodes[y].mustPredecessors;
    }
    if FinalizerEdgesMirrored(nodes) {
      forall x, y | IsTask(r, x) && IsTask(r, y)
        ensures y in r[x].finalizingSuccessors <==> x in r[y].finalizers
      {
        assert y in nodes[x].finalizingSuccessors <==> x in nodes[y].finalizers;
      }
    }
  }

  lemma AddDependencyEdgeKeepsGraphOk(nodes: Nodes, nextId: nat, n: NodeId, x: NodeId)
    requires GraphOk(nodes, nextId) && n in nodes && x in nodes
    ensures GraphOk(AddDependencyEdge(nodes, n, x), nextId)
    ensures FinalizerEdgesMirrored(nodes) ==> FinalizerEdgesMirrored(AddDependencyEdge(nodes, n, x))
  {
    var r := AddDependencyEdge(nodes, n, x);
    forall m | m in r ensures NodeOk(r, r[m]) {
      assert NodeOk(nodes, nodes[m]);
    }
    forall a, b | a in r && b in r
      ensures b in r[a].mustSuccessors <==> a in r[b].mustPredecessors
    {
      assert b in nodes[a].mustSuccessors <==> a in nodes[b].mustPredecessors;
    }
    if FinalizerEdgesMirrored(nodes) {
      forall x, y | IsTask(r, x) && IsTask(r, y)
        ensures y in r[x].finalizingSuccessors <==> x in r[y].finalizers
      {
        assert y in nodes[x].finalizingSuccessors <==> x in nodes[y].finalizers;
      }
    }
  }

  /** A node may move to any group whose finalizer, if it has one, is a task of the graph. */
  lemma SetGroupKeepsGraphOk(nodes: Nodes, nextId: nat, n: NodeId, g: NodeGroup)
    requires GraphOk(nodes, nextId) && n in nodes
    requires g.Finalizer? ==> IsTask(nodes, g.finalizer.node)
    ensures GraphOk(SetGroup(nodes, n, g), nextId)
    ensures FinalizerEdgesMirrored(nodes) ==> FinalizerEdgesMirrored(SetGroup(nodes, n, g))
  {
    var r := SetGroup(nodes, n, g);
    forall m | m in r ensures NodeOk(r, r[m]) {
      assert NodeOk(nodes, nodes[m]);
    }
    forall a, b | a in r && b in r
      ensures b in r[a].mustSuccessors <==> a in r[b].mustPredecessors
    {
      assert b in nodes[a].mustSuccessors <==> a in nodes[b].mustPredecessors;
    }
    if FinalizerEdgesMirrored(nodes) {
      forall x, y | IsTask(r, x) && IsTask(r, y)
        ensures y in r[x].finalizingSuccessors <==> x in r[y].finalizers
      {
        assert y in nodes[x].finalizingSuccessors <==> x in nodes[y].finalizers;
      }
    }
  }

  // ---------------------------------------------------------------- views

  /** `FinalizerGroup.getFinalizedNodes()`: the finalizer task's finalizing successors. */
  function FinalizedNodes(nodes: Nodes, f: FinalizerGroup): (r: set<NodeId>)
    requires f.node in nodes
    ensures IsTask(nodes, f.node) && FinalizerEdgesMirrored(nodes) ==>
              forall x :: IsTask(nodes, x) ==> (x in r <==> f.node in nodes[x].finalizers)
  {
    nodes[f.node].finalizingSuccessors
  }

  /** `getFinalizingSuccessorsInReverseOrder()`: the `descendingSet()` of the finalizing successors. */
  function FinalizingSuccessorsInReverseOrder(nodes: Nodes, n: NodeId): (r: seq<NodeId>)
    requires n in nodes
    ensures Decreasing(r) && |r| == |nodes[n].finalizingSuccessors|
    ensures forall x :: x in r <==> x in nodes[n].finalizingSuccessors
  {
    ReverseOfIncreasing(Ascending(nodes[n].finalizingSuccessors));
    Reverse(Ascending(nodes[n].finalizingSuccessors))
  }

  /** The group's finalizer, when it has one, is a node of the graph. */
  predicate GroupInGraph(nodes: Nodes, g: NodeGroup) {
    g.Finalizer? ==> g.finalizer.node in nodes
  }

  /** `getSuccessors()` of a group: the finalized nodes for a finalizer group, nothing otherwise. */
  function GroupSuccessors(nodes: Nodes, g: NodeGroup): (r: seq<NodeId>)
    requires GroupInGraph(nodes, g)
    ensures Increasing(r)
    ensures g.Finalizer? ==> forall x :: x in r <==> x in FinalizedNodes(nodes, g.finalizer)
    ensures !g.Finalizer? ==> r == []
  {
    match g
    case Finalizer(f) => Ascending(FinalizedNodes(nodes, f))
    case _ => []
  }

  /** `getSuccessorsInReverseOrder()` of a group. */
  function GroupSuccessorsInReverseOrder(nodes: Nodes, g: NodeGroup): (r: seq<NodeId>)
    requires GroupInGraph(nodes, g)
    ensures Decreasing(r)
    ensures forall x :: x in r <==> x in GroupSuccessors(nodes, g)
  {
    match g
    case Finalizer(f) => FinalizingSuccessorsInReverseOrder(nodes, f.node)
    case _ => []
  }

  /** `getAllSuccessors()`: should, group, must, then the base node's successors. */
  function AllSuccessors(nodes: Nodes, n: NodeId): (r: seq<NodeId>)
    requires n in nodes && GroupInGraph(nodes, nodes[n].group)
    ensures forall x :: x in r <==>
              x in nodes[n].shouldSuccessors || x in GroupSuccessors(nodes, nodes[n].group)
              || x in nodes[n].mustSuccessors || x in nodes[n].dependencySuccessors
  {
    var d := nodes[n];
    Ascending(d.shouldSuccessors) + GroupSuccessors(nodes, d.group) + Ascending(d.mustSuccessors)
    + Ascending(d.dependencySuccessors)
  }

  /** `getHardSuccessors()`: group, must, then the base node's successors. */
  function HardSuccessors(nodes: Nodes, n: NodeId): (r: seq<NodeId>)
    requires n in nodes && GroupInGraph(nodes, nodes[n].group)
    ensures forall x :: x in r <==>
              x in GroupSuccessors(nodes, nodes[n].group) || x in nodes[n].mustSuccessors
              || x in nodes[n].dependencySuccessors
  {
    var d := nodes[n];
    GroupSuccessors(nodes, d.group) + Ascending(d.mustSuccessors) + Ascending(d.dependencySuccessors)
  }

  /** `getAllSuccessorsInReverseOrder()`: each part descending, the parts in the opposite order. */
  function AllSuccessorsInReverseOrder(nodes: Nodes, n: NodeId): (r: seq<NodeId>)
    requires n in nodes && GroupInGraph(nodes, nodes[n].group)
    ensures forall x :: x in r <==> x in AllSuccessors(nodes, n)
  {
    var d := nodes[n];
    ReverseOfIncreasing(Ascending(d.dependencySuccessors));
    ReverseOfIncreasing(Ascending(d.mustSuccessors));
    ReverseOfIncreasing(Ascending(d.shouldSuccessors));
    Reverse(Ascending(d.dependencySuccessors)) + Reverse(Ascending(d.mustSuccessors))
    + GroupSuccessorsInReverseOrder(nodes, d.group) + Reverse(Ascending(d.shouldSuccessors))
  }

  /**
   * `hasHardSuccessor(s)`: a base dependency, or a task that is a
   * must-successor or a finalizing successor.
   */
  predicate HasHardSuccessor(nodes: Nodes, n: NodeId, s: NodeId): (b: bool)
    requires n in nodes && s in nodes
    ensures s in nodes[n].dependencySuccessors ==> b
    ensures !IsTask(nodes, s) ==> (b <==> s in nodes[n].dependencySuccessors)
    ensures IsTask(nodes, s) ==>
              (b <==> s in nodes[n].dependencySuccessors + nodes[n].mustSuccessors + nodes[n].finalizingSuccessors)
  {
    if s in nodes[n].dependencySuccessors then true
    else if !nodes[s].kind.Task? then false
    else s in nodes[n].mustSuccessors || s in nodes[n].finalizingSuccessors
  }

  /** A finalizer group's successor views are its finalizer's finalizing successors, both ways round. */
  lemma FinalizerGroupViews(nodes: Nodes, f: FinalizerGroup)
    requires f.node in nodes
    ensures FinalizedNodes(nodes, f) == nodes[f.node].finalizingSuccessors
    ensures Increasing(GroupSuccessors(nodes, Finalizer(f)))
    ensures forall x :: x in GroupSuccessors(nodes, Finalizer(f)) <==> x in FinalizedNodes(nodes, f)
    ensures GroupSuccessorsInReverseOrder(nodes, Finalizer(f)) == Reverse(GroupSuccessors(nodes, Finalizer(f)))
    ensures Decreasing(GroupSuccessorsInReverseOrder(nodes, Finalizer(f)))
    ensures forall x :: x in GroupSuccessorsInReverseOrder(nodes, Finalizer(f)) <==> x in FinalizedNodes(nodes, f)
  {
    ReverseOfIncreasing(Ascending(nodes[f.node].finalizingSuccessors));
  }

  /** The hard successors are all successors with the should-successors left out. */
  lemma HardSuccessorsDropShould(nodes: Nodes, n: NodeId)
    requires n in nodes && GroupInGraph(nodes, nodes[n].group)
    ensures AllSuccessors(nodes, n) == Ascending(nodes[n].shouldSuccessors) + HardSuccessors(nodes, n)
    ensures forall x :: x in HardSuccessors(nodes, n) ==> x in AllSuccessors(nodes, n)
    ensures forall x :: x in AllSuccessors(nodes, n) && x !in nodes[n].shouldSuccessors ==> x in HardSuccessors(nodes, n)
  {
    var d := nodes[n];
    var s, g := Ascending(d.shouldSuccessors), GroupSuccessors(nodes, d.group);
    var m, b := Ascending(d.mustSuccessors), Ascending(d.dependencySuccessors);
    SplitFirst(s, g, m, b);
  }

  /** The reverse-order view is exactly the forward view reversed, so it has the same elements. */
  lemma ReverseOrderIsReverse(nodes: Nodes, n: NodeId)
    requires n in nodes && GroupInGraph(nodes, nodes[n].group)
    ensures AllSuccessorsInReverseOrder(nodes, n) == Reverse(AllSuccessors(nodes, n))
    ensures multiset(AllSuccessorsInReverseOrder(nodes, n)) == multiset(AllSuccessors(nodes, n))
  {
    var d := nodes[n];
    var s, g := Ascending(d.shouldSuccessors), GroupSuccessors(nodes, d.group);
    var m, b := Ascending(d.mustSuccessors), Ascending(d.dependencySuccessors);
    ReverseOfFour(s, g, m, b);
    assert GroupSuccessorsInReverseOrder(nodes, d.group) == Reverse(g);
    ReverseSameMultiset(AllSuccessors(nodes, n));
  }

  /**
   * `hasHardSuccessor` against the hard-successor view: it also accepts the
   * node's own finalizing successors, and for a finalizer in its own group
   * the two agree on tasks.
   */
  lemma HasHardSuccessorAgainstView(nodes: Nodes, n: NodeId, s: NodeId)
    requires n in nodes && s in nodes && GroupInGraph(nodes, nodes[n].group)
    ensures HasHardSuccessor(nodes, n, s) ==> s in HardSuccessors(nodes, n) || s in nodes[n].finalizingSuccessors
    ensures IsTask(nodes, s) && s in HardSuccessors(nodes, n) && s !in GroupSuccessors(nodes, nodes[n].group) ==>
              HasHardSuccessor(nodes, n, s)
    ensures nodes[n].group.Finalizer? && nodes[n].group.finalizer.node == n && IsTask(nodes, s) ==>
              (HasHardSuccessor(nodes, n, s) <==> s in HardSuccessors(nodes, n))
  {
  }

  // ----------------------------------------------------------- predicates

  ghost predicate AllComplete(nodes: Nodes, s: set<NodeId>)
    requires s <= nodes.Keys
  {
    forall x :: x in s ==> nodes[x].state.IsComplete()
  }

  ghost predicate AnyExecuted(nodes: Nodes, s: set<NodeId>)
    requires s <= nodes.Keys
  {
    exists x :: x in s && nodes[x].state.IsExecuted()
  }

  /**
   * When a task's dependencies count as complete: the base check, every
   * must-successor complete and, in a finalizer group, every finalized node
   * complete.
   */
  ghost predicate DependenciesComplete(nodes: Nodes, n: NodeId): (b: bool)
    requires Closed(nodes) && n in nodes
    ensures b ==> nodes[n].baseDependenciesComplete
    ensures b ==> forall x :: x in nodes[n].mustSuccessors && x in nodes ==> nodes[x].state.IsComplete()
    ensures b && nodes[n].group.Finalizer? ==> forall x ::
              x in nodes[nodes[n].group.finalizer.node].finalizingSuccessors && x in nodes ==> nodes[x].state.IsComplete()
  {
    && nodes[n].baseDependenciesComplete
    && AllComplete(nodes, nodes[n].mustSuccessors)
    && match AsFinalizer(nodes[n].group)
       case None => true
       case Some(f) => AllComplete(nodes, FinalizedNodes(nodes, f))
  }

  /**
   * When a task's dependencies count as successful: the base check and, in a
   * finalizer group, at least one finalized node attempted.
   */
  ghost predicate DependenciesSuccessful(nodes: Nodes, n: NodeId): (b: bool)
    requires Closed(nodes) && n in nodes
    ensures b ==> nodes[n].baseDependenciesSuccessful
    ensures b && nodes[n].group.Finalizer? ==> exists x ::
              x in nodes[nodes[n].group.finalizer.node].finalizingSuccessors && x in nodes && nodes[x].state.IsExecuted()
  {
    && nodes[n].baseDependenciesSuccessful
    && match AsFinalizer(nodes[n].group)
       case None => true
       case Some(f) => AnyExecuted(nodes, FinalizedNodes(nodes, f))
  }

  /** A must-successor that is not complete holds its predecessor back. */
  lemma MustSuccessorGatesCompletion(nodes: Nodes, a: NodeId, b: NodeId)
    requires Closed(nodes) && a in nodes && b in nodes[a].mustSuccessors && !nodes[b].state.IsComplete()
    ensures !DependenciesComplete(nodes, a)
  {
  }

  /**
   * Must-run-after orders, it does not propagate failure: outside a
   * finalizer group, success depends on the base check alone.
   */
  lemma MustSuccessorOutcomeIsIrrelevant(nodes: Nodes, a: NodeId)
    requires Closed(nodes) && a in nodes && !nodes[a].group.Finalizer?
    ensures DependenciesSuccessful(nodes, a) == nodes[a].baseDependenciesSuccessful
    ensures DependenciesComplete(nodes, a) ==
              (nodes[a].baseDependenciesComplete && AllComplete(nodes, nodes[a].mustSuccessors))
  {
  }

  /** A node in a finalizer group waits for every finalized node. */
  lemma FinalizerWaitsForEveryFinalized(nodes: Nodes, n: NodeId, x: NodeId)
    requires Closed(nodes) && n in nodes && nodes[n].group.Finalizer?
    requires x in FinalizedNodes(nodes, nodes[n].group.finalizer) && !nodes[x].state.IsComplete()
    ensures !DependenciesComplete(nodes, n)
  {
  }

  /** A node in a finalizer group may run once any finalized node was attempted, failed or not. */
  lemma FinalizerRunsIfAnyFinalizedAttempted(nodes: Nodes, n: NodeId, x: NodeId)
    requires Closed(nodes) && n in nodes && nodes[n].group.Finalizer? && nodes[n].baseDependenciesSuccessful
    requires x in FinalizedNodes(nodes, nodes[n].group.finalizer) && nodes[x].state in {Succeeded, Failed}
    ensures DependenciesSuccessful(nodes, n)
  {
  }

  /** A finalizer group with nothing finalized never counts as successful. */
  lemma NothingFinalizedNeverSuccessful(nodes: Nodes, n: NodeId)
    requires Closed(nodes) && n in nodes && nodes[n].group.Finalizer?
    requires FinalizedNodes(nodes, nodes[n].group.finalizer) == {}
    ensures !DependenciesSuccessful(nodes, n)
  {
  }

  /** What `deprecateLifecycleHookReferencingNonLocalTask` logs for a hook aimed at `target`. */
  function DeprecationFor(nodes: Nodes, hookName: string, target: NodeId): seq<string>
    requires target in nodes
  {
    if nodes[target].kind == Task(true) then ["Using " + hookName + " to reference tasks from another build"] else []
  }

  /** The required nodes among `s`: what `addDependenciesFrom` keeps of a hard-successor view. */
  ghost function RequiredAmong(nodes: Nodes, s: seq<NodeId>): set<NodeId> {
    set x | x in s && x in nodes && nodes[x].required
  }

  lemma RequiredAmongSnoc(nodes: Nodes, s: seq<NodeId>, x: NodeId)
    ensures RequiredAmong(nodes, s + [x]) ==
              RequiredAmong(nodes, s) + (if x in nodes && nodes[x].required then {x} else {})
  {
  }

  /** The node `o` with `extra` added to its base dependency successors. */
  function WithDependencies(nodes: Nodes, o: NodeId, extra: set<NodeId>): (r: Nodes)
    requires o in nodes
    ensures r.Keys == nodes.Keys
    ensures forall x {:trigger r[x]} :: x in nodes ==> r[x].required == nodes[x].required
  {
    nodes[o := nodes[o].(dependencySuccessors := nodes[o].dependencySuccessors + extra)]
  }

  lemma WithNoDependencies(nodes: Nodes, o: NodeId)
    requires o in nodes
    ensures WithDependencies(nodes, o, {}) == nodes
  {
    assert nodes[o].dependencySuccessors + {} == nodes[o].dependencySuccessors;
  }

  lemma WithDependenciesThenEdge(nodes: Nodes, o: NodeId, extra: set<NodeId>, x: NodeId)
    requires o in nodes
    ensures AddDependencyEdge(WithDependencies(nodes, o, extra), o, x) == WithDependencies(nodes, o, extra + {x})
  {
    assert nodes[o].dependencySuccessors + extra + {x} == nodes[o].dependencySuccessors + (extra + {x});
  }

  lemma WithDependenciesKeepsGraphOk(nodes: Nodes, nextId: nat, o: NodeId, extra: set<NodeId>)
    requires GraphOk(nodes, nextId) && o in nodes && extra <= nodes.Keys
    ensures GraphOk(WithDependencies(nodes, o, extra), nextId)
    ensures FinalizerEdgesMirrored(nodes) ==> FinalizerEdgesMirrored(WithDependencies(nodes, o, extra))
  {
    var r := WithDependencies(nodes, o, extra);
    forall m | m in r ensures NodeOk(r, r[m]) {
      assert NodeOk(nodes, nodes[m]);
    }
    forall a, b | a in r && b in r
      ensures b in r[a].mustSuccessors <==> a in r[b].mustPredecessors
    {
      assert b in nodes[a].mustSuccessors <==> a in nodes[b].mustPredecessors;
    }
    if FinalizerEdgesMirrored(nodes) {
      forall x, y | IsTask(r, x) && IsTask(r, y)
        ensures y in r[x].finalizingSuccessors <==> x in r[y].finalizers
      {
        assert y in nodes[x].finalizingSuccessors <==> x in nodes[y].finalizers;
      }
    }
  }

  /** Every hard successor of a node is a node of the graph. */
  lemma HardSuccessorsInGraph(nodes: Nodes, t: NodeId)
    requires Closed(nodes) && t in nodes
    ensures GroupInGraph(nodes, nodes[t].group)
    ensures forall x :: x in HardSuccessors(nodes, t) ==> x in nodes
  {
    assert NodeOk(nodes, nodes[t]);
    if nodes[t].group.Finalizer? {
      assert NodeOk(nodes, nodes[nodes[t].group.finalizer.node]);
    }
  }

  /**
   * The loop of `OrdinalNode.addDependenciesFrom`: each node of `hard` that is
   * required becomes a base dependency successor of `o`, in order.
   */
  method AddRequiredDependencies(nodes: Nodes, o: NodeId, hard: seq<NodeId>) returns (r: Nodes)
    requires o in nodes && forall x :: x in hard ==> x in nodes
    ensures r == WithDependencies(nodes, o, RequiredAmong(nodes, hard))
  {
    r := nodes;
    WithNoDependencies(nodes, o);
    assert RequiredAmong(nodes, hard[..0]) == {};
    for i := 0 to |hard|
      invariant r == WithDependencies(nodes, o, RequiredAmong(nodes, hard[..i]))
    {
      RequiredAmongSnoc(nodes, hard[..i], hard[i]);
      assert hard[..i + 1] == hard[..i] + [hard[i]];
      assert hard[i] in nodes && r[hard[i]].required == nodes[hard[i]].required;
      if r[hard[i]].required {
        WithDependenciesThenEdge(nodes, o, RequiredAmong(nodes, hard[..i]), hard[i]);
        r := AddDependencyEdge(r, o, hard[i]);
      } else {
        assert RequiredAmong(nodes, hard[..i + 1]) == RequiredAmong(nodes, hard[..i]);
      }
    }
    assert hard[..|hard|] == hard;
  }

  /** Iteration over a `HashSet`: every element once, in an order the model leaves open. */
  method VisitEachOnce(s: set<NodeId>) returns (order: seq<NodeId>)
    ensures NoDuplicates(order) && |order| == |s|
    ensures forall x :: x in order <==> x in s
  {
    order := [];
    var remaining := s;
    while remaining != {}
      invariant remaining <= s
      invariant |order| + |remaining| == |s|
      invariant forall x :: x in order <==> x in s && x !in remaining
      invariant NoDuplicates(order)
      decreases remaining
    {
      var x :| x in remaining;
      order := order + [x];
      remaining := remaining - {x};
    }
  }

  /** A loop of `doCheckDependenciesComplete`: false at the first node, in order, that is not complete. */
  method CheckAllComplete(nodes: Nodes, s: set<NodeId>) returns (complete: bool)
    requires s <= nodes.Keys
    ensures complete == AllComplete(nodes, s)
  {
    var ordered := Ascending(s);
    for i := 0 to |ordered|
      invariant forall j :: 0 <= j < i ==> nodes[ordered[j]].state.IsComplete()
    {
      if !nodes[ordered[i]].state.IsComplete() {
        return false;
      }
    }
    return true;
  }

  /** The loop of `allDependenciesSuccessful`: true at the first node, in order, that was executed. */
  method CheckAnyExecuted(nodes: Nodes, s: set<NodeId>) returns (executed: bool)
    requires s <= nodes.Keys
    ensures executed == AnyExecuted(nodes, s)
  {
    var ordered := Ascending(s);
    for i := 0 to |ordered|
      invariant forall j :: 0 <= j < i ==> !nodes[ordered[j]].state.IsExecuted()
    {
      if nodes[ordered[i]].state.IsExecuted() {
        return true;
      }
    }
    return false;
  }

  // ------------------------------------------------------------- the arena

  class NodeGraph {
    var nextId: nat
    var nodes: Nodes
    /** Messages handed to the deprecation logger. */
    var deprecations: seq<string>

    ghost predicate Valid()
      reads this
    {
      GraphOk(nodes, nextId)
    }

    constructor ()
      ensures Valid() && FinalizerEdgesMirrored(nodes)
      ensures nodes == map[] && deprecations == []
    {
      nextId := 0;
      nodes := map[];
      deprecations := [];
    }

    /**
     * A node joins the plan pending, in the default group, with every edge
     * set empty; its index is fresh, so it sorts after every earlier node.
     */
    method NewNode(k: NodeKind, isRequired: bool) returns (id: NodeId)
      requires Valid()
      modifies this`nextId, this`nodes
      ensures Valid()
      ensures old(FinalizerEdgesMirrored(nodes)) ==> FinalizerEdgesMirrored(nodes)
      ensures id !in old(nodes) && forall m :: m in old(nodes) ==> m < id
      ensures nodes == old(nodes)[id := Fresh(k, isRequired)]
    {
      id := nextId;
      AddNodeKeepsGraphOk(nodes, nextId, k, isRequired);
      nodes := nodes[id := Fresh(k, isRequired)];
      nextId := nextId + 1;
    }

    /** `new OrdinalNode(type, ordinal)`: a new node, distinct from every other even with the same identity. */
    method NewOrdinalNode(t: OrdinalType, ordinal: int, isRequired: bool) returns (id: NodeId)
      requires Valid()
      modifies this`nextId, this`nodes
      ensures Valid()
      ensures id !in old(nodes) && nodes == old(nodes)[id := Fresh(Barrier(OrdinalNode(t, ordinal)), isRequired)]
      ensures GetType(nodes[id].kind.identity) == t && GetOrdinal(nodes[id].kind.identity) == ordinal
    {
      id := NewNode(Barrier(OrdinalNode(t, ordinal)), isRequired);
    }

    /** `doCheckDependenciesComplete()`: the base check, then the must-successors, then the finalized nodes. */
    method DoCheckDependenciesComplete(n: NodeId) returns (complete: bool)
      requires Closed(nodes) && IsTask(nodes, n)
      ensures complete == DependenciesComplete(nodes, n)
    {
      assert NodeOk(nodes, nodes[n]);
      if !nodes[n].baseDependenciesComplete {
        return false;
      }
      complete := CheckAllComplete(nodes, nodes[n].mustSuccessors);
      if !complete {
        return false;
      }
      var finalizer := AsFinalizer(nodes[n].group);
      if finalizer.Some? {
        assert NodeOk(nodes, nodes[finalizer.value.node]);
        complete := CheckAllComplete(nodes, FinalizedNodes(nodes, finalizer.value));
      }
    }

    /** `allDependenciesSuccessful()`: in a finalizer group, true as soon as one finalized node was attempted. */
    method AllDependenciesSuccessful(n: NodeId) returns (successful: bool)
      requires Closed(nodes) && IsTask(nodes, n)
      ensures successful == DependenciesSuccessful(nodes, n)
    {
      assert NodeOk(nodes, nodes[n]);
      if !nodes[n].baseDependenciesSuccessful {
        return false;
      }
      var finalizer := AsFinalizer(nodes[n].group);
      if finalizer.None? {
        return true;
      }
      assert NodeOk(nodes, nodes[finalizer.value.node]);
      successful := CheckAnyExecuted(nodes, FinalizedNodes(nodes, finalizer.value));
    }

    // ---------------------------------------------------------- mutators

    method DeprecateLifecycleHookReferencingNonLocalTask(hookName: string, target: NodeId)
      requires target in nodes
      modifies this`deprecations
      ensures deprecations == old(deprecations) + DeprecationFor(nodes, hookName, target)
    {
      if nodes[target].kind == Task(true) {
        deprecations := deprecations + ["Using " + hookName + " to reference tasks from another build"];
      }
    }

    /** `a.addMustSuccessor(b)`: both ends of the must edge, nothing else. */
    method AddMustSuccessor(a: NodeId, b: NodeId)
      requires Valid() && IsTask(nodes, a) && IsTask(nodes, b)
      modifies this`nodes, this`deprecations
      ensures Valid()
      ensures old(FinalizerEdgesMirrored(nodes)) ==> FinalizerEdgesMirrored(nodes)
      ensures nodes == AddMustEdge(old(nodes), a, b)
      ensures deprecations == old(deprecations) + DeprecationFor(old(nodes), "mustRunAfter", b)
    {
      DeprecateLifecycleHookReferencingNonLocalTask("mustRunAfter", b);
      AddMustEdgeKeepsGraphOk(nodes, nextId, a, b);
      nodes := AddMustEdge(nodes, a, b);
    }

    /** `t.addFinalizer(f)`. */
    method AddFinalizer(t: NodeId, f: NodeId)
      requires Valid() && t in nodes && f in nodes
      modifies this`nodes
      ensures Valid()
      ensures nodes == AddFinalizerEdge(old(nodes), t, f)
    {
      AddFinalizerEdgeKeepsGraphOk(nodes, nextId, t, f);
      nodes := AddFinalizerEdge(nodes, t, f);
    }

    /** `f.addFinalizingSuccessor(t)`: `t` joins `f`'s finalizing successors, then `t.addFinalizer(f)`. */
    method AddFinalizingSuccessor(f: NodeId, t: NodeId)
      requires Valid() && IsTask(nodes, f) && t in nodes
      modifies this`nodes
      ensures Valid()
      ensures old(FinalizerEdgesMirrored(nodes)) ==> FinalizerEdgesMirrored(nodes)
      ensures nodes == AddFinalizingEdge(old(nodes), f, t)
    {
      AddFinalizingEdgeKeepsGraphOk(nodes, nextId, f, t);
      if FinalizerEdgesMirrored(nodes) {
        AddFinalizingEdgeKeepsFinalizerMirror(nodes, f, t);
      }
      nodes := AddFinalizingEdge(nodes, f, t);
    }

    method AddShouldSuccessor(a: NodeId, b: NodeId)
      requires Valid() && IsTask(nodes, a) && b in nodes
      modifies this`nodes, this`deprecations
      ensures Valid()
      ensures old(FinalizerEdgesMirrored(nodes)) ==> FinalizerEdgesMirrored(nodes)
      ensures nodes == AddShouldEdge(old(nodes), a, b)
      ensures deprecations == old(deprecations) + DeprecationFor(old(nodes), "shouldRunAfter", b)
    {
      DeprecateLifecycleHookReferencingNonLocalTask("shouldRunAfter", b);
      AddShouldEdgeKeepsGraphOk(nodes, nextId, a, b);
      nodes := AddShouldEdge(nodes, a, b);
    }

    method RemoveShouldSuccessor(a: NodeId, b: NodeId)
      requires Valid() && IsTask(nodes, a) && IsTask(nodes, b)
      modifies this`nodes
      ensures Valid()
      ensures old(FinalizerEdgesMirrored(nodes)) ==> FinalizerEdgesMirrored(nodes)
      ensures nodes == RemoveShouldEdge(old(nodes), a, b)
    {
      RemoveShouldEdgeKeepsGraphOk(nodes, nextId, a, b);
      nodes := RemoveShouldEdge(nodes, a, b);
    }

    /** The base node's `addDependencySuccessor`. */
    method AddDependencySuccessor(n: NodeId, x: NodeId)
      requires Valid() && n in nodes && x in nodes
      modifies this`nodes
      ensures Valid()
      ensures old(FinalizerEdgesMirrored(nodes)) ==> FinalizerEdgesMirrored(nodes)
      ensures nodes == AddDependencyEdge(old(nodes), n, x)
    {
      AddDependencyEdgeKeepsGraphOk(nodes, nextId, n, x);
      nodes := AddDependencyEdge(nodes, n, x);
    }

    /**
     * `OrdinalNode.addDependenciesFrom(t)`: the barrier takes on every hard
     * successor of `t` that is required, and nothing else changes.
     */
    method AddDependenciesFrom(o: NodeId, t: NodeId)
      requires Valid() && o in nodes && nodes[o].kind.Barrier? && IsTask(nodes, t)
      modifies this`nodes
      ensures Valid()
      ensures old(FinalizerEdgesMirrored(nodes)) ==> FinalizerEdgesMirrored(nodes)
      ensures GroupInGraph(old(nodes), old(nodes[t].group))
      ensures nodes == WithDependencies(old(nodes), o, RequiredAmong(old(nodes), old(HardSuccessors(nodes, t))))
    {
      HardSuccessorsInGraph(nodes, t);
      var hard := HardSuccessors(nodes, t);
      WithDependenciesKeepsGraphOk(nodes, nextId, o, RequiredAmong(nodes, hard));
      nodes := AddRequiredDependencies(nodes, o, hard);
    }

    // ------------------------------------------------------ group handling

    /**
     * `maybeInheritGroupAsFinalizer(from)`: a node already in a finalizer group
     * keeps it and may only raise its ordinal; any other node moves to a new
     * finalizer group owned by itself, seeded from `from`'s group.
     */
    method MaybeInheritGroupAsFinalizer(n: NodeId, from: NodeId)
      requires Valid() && IsTask(nodes, n) && from in nodes
      modifies this`nodes, GroupObjects(nodes[n].group)
      ensures Valid()
      ensures old(FinalizerEdgesMirrored(nodes)) ==> FinalizerEdgesMirrored(nodes)
      ensures old(nodes[n].group).Finalizer? ==>
                && nodes == old(nodes)
                && nodes[n].group.finalizer.ordinal ==
                   Inherit(old(nodes[n].group.finalizer.ordinal), old(AsOrdinal(nodes[from].group)))
                && nodes[n].group.finalizer.members == old(nodes[n].group.finalizer.members)
      ensures !old(nodes[n].group).Finalizer? ==>
                && n in nodes && nodes == SetGroup(old(nodes), n, nodes[n].group)
                && nodes[n].group.Finalizer? && fresh(nodes[n].group.finalizer)
                && nodes[n].group.finalizer.node == n && nodes[n].group.finalizer.members == [n]
                && nodes[n].group.finalizer.ordinal == old(AsOrdinal(nodes[from].group))
                && nodes[n].group.finalizer.Valid()
    {
      var fromGroup := nodes[from].group;
      var current := nodes[n].group;
      if current.Finalizer? {
        current.finalizer.MaybeInheritFrom(fromGroup);
      } else {
        var created := new FinalizerGroup(n, fromGroup);
        SetGroupKeepsGraphOk(nodes, nextId, n, Finalizer(created));
        nodes := SetGroup(nodes, n, Finalizer(created));
      }
    }

    /** Calling `maybeInheritGroupAsFinalizer` a second time with the same source changes nothing more. */
    method MaybeInheritGroupAsFinalizerTwice(n: NodeId, from: NodeId)
      requires Valid() && IsTask(nodes, n) && from in nodes
      modifies this`nodes, GroupObjects(nodes[n].group)
      ensures Valid()
      ensures old(nodes[n].group).Finalizer? ==>
                && nodes == old(nodes)
                && nodes[n].group.finalizer.ordinal ==
                   Inherit(old(nodes[n].group.finalizer.ordinal), old(AsOrdinal(nodes[from].group)))
                && nodes[n].group.finalizer.members == old(nodes[n].group.finalizer.members)
      ensures !old(nodes[n].group).Finalizer? ==>
                && n in nodes && nodes == SetGroup(old(nodes), n, nodes[n].group)
                && nodes[n].group.Finalizer? && fresh(nodes[n].group.finalizer)
                && nodes[n].group.finalizer.node == n && nodes[n].group.finalizer.members == [n]
                && nodes[n].group.finalizer.ordinal == old(AsOrdinal(nodes[from].group))
    {
      ghost var fromBefore := AsOrdinal(nodes[from].group);
      ghost var wasFinalizer := nodes[n].group.Finalizer?;
      MaybeInheritGroupAsFinalizer(n, from);
      ghost var once := nodes;
      ghost var f := nodes[n].group.finalizer;
      ghost var ordinalOnce := f.ordinal;
      ghost var membersOnce := f.members;
      ghost var fromNow := AsOrdinal(nodes[from].group);
      assert fromNow == fromBefore || fromNow == ordinalOnce;
      InheritIdempotent(if wasFinalizer then old(nodes[n].group.finalizer.ordinal) else fromBefore, fromBefore);
      MaybeInheritGroupAsFinalizer(n, from);
      assert nodes == once && f.ordinal == ordinalOnce && f.members == membersOnce;
    }

    // --------------------------------------------------- visiting dependents

    ghost function FinalizerGroupsOf(fs: seq<NodeId>): set<object>
      reads this
    {
      set x | x in fs && x in nodes && nodes[x].group.Finalizer? :: nodes[x].group.finalizer
    }

    /** The members of the finalizer groups of `fs`, group after group. */
    ghost function MembersOfFinalizers(fs: seq<NodeId>): seq<NodeId>
      reads this, FinalizerGroupsOf(fs)
      requires forall x :: x in fs ==> x in nodes && nodes[x].group.Finalizer?
    {
      if fs == [] then [] else nodes[fs[0]].group.finalizer.members + MembersOfFinalizers(fs[1..])
    }

    lemma {:induction false} MembersOfFinalizersSnoc(fs: seq<NodeId>, x: NodeId)
      requires forall y :: y in fs + [x] ==> y in nodes && nodes[y].group.Finalizer?
      ensures MembersOfFinalizers(fs + [x]) == MembersOfFinalizers(fs) + nodes[x].group.finalizer.members
    {
      if fs != [] {
        assert (fs + [x])[1..] == fs[1..] + [x];
        MembersOfFinalizersSnoc(fs[1..], x);
      }
    }

    /**
     * The finalizer loop of `visitAllDependents`: each finalizer's group visits
     * its members in insertion order (`FinalizerGroup.VisitAllMembers`), the
     * finalizers taken in order.
     */
    method VisitFinalizerGroups(fins: seq<NodeId>) returns (visited: seq<NodeId>)
      requires forall f :: f in fins ==> f in nodes && nodes[f].group.Finalizer?
      ensures visited == MembersOfFinalizers(fins)
    {
      visited := [];
      for i := 0 to |fins|
        invariant visited == MembersOfFinalizers(fins[..i])
      {
        assert fins[..i + 1] == fins[..i] + [fins[i]];
        MembersOfFinalizersSnoc(fins[..i], fins[i]);
        visited := visited + nodes[fins[i]].group.finalizer.members;
      }
      assert fins[..|fins|] == fins;
    }

    /**
     * `visitAllDependents(visitor)`: what the base node visits (`baseVisits`),
     * then each must-predecessor once, in the hash set's unspecified order,
     * then the members of each finalizer's group, finalizers in order.
     */
    method VisitAllDependents(n: NodeId, baseVisits: seq<NodeId>) returns (visited: seq<NodeId>)
      requires IsTask(nodes, n)
      requires forall f :: f in nodes[n].finalizers ==> f in nodes && nodes[f].group.Finalizer?
      ensures |visited| >= |baseVisits| + |nodes[n].mustPredecessors|
      ensures visited[..|baseVisits|] == baseVisits
      ensures NoDuplicates(visited[|baseVisits|..|baseVisits| + |nodes[n].mustPredecessors|])
      ensures forall x :: x in visited[|baseVisits|..|baseVisits| + |nodes[n].mustPredecessors|] <==>
                x in nodes[n].mustPredecessors
      ensures visited[|baseVisits| + |nodes[n].mustPredecessors|..] ==
                MembersOfFinalizers(Ascending(nodes[n].finalizers))
    {
      var predecessors := VisitEachOnce(nodes[n].mustPredecessors);
      var fromFinalizers := VisitFinalizerGroups(Ascending(nodes[n].finalizers));
      visited := baseVisits + predecessors + fromFinalizers;
      assert visited[..|baseVisits|] == baseVisits;
      assert visited[|baseVisits|..|baseVisits| + |predecessors|] == predecessors;
      assert visited[|baseVisits| + |predecessors|..] == fromFinalizers;
    }
  }
}

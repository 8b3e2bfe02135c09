/**
 * Why a node is in the execution plan: the default group, an ordinal group
 * (one command-line request, numbered) or the group of nodes reachable from
 * one finalizer. `NodeGroup`'s virtual methods become functions that match on
 * the variant; `FinalizerGroup` keeps its mutable state in a class.
 */
module NodeGroups {
  import opened Wrappers
  import opened OrderedSets

  /** Nodes are addressed by index; the index is also their sort key. */
  type NodeId = nat

  /**
   * The ordinal group of one command-line request. Its class body is not part
   * of this model: only its number and its answer to `isEntryPoint()` are kept.
   */
  datatype OrdinalGroup = OrdinalGroup(ordinal: int, entryPoint: bool)

  datatype NodeGroup =
    | Default
    | Ordinal(group: OrdinalGroup)
    | Finalizer(finalizer: FinalizerGroup)

  /** The objects a group's answers depend on (only a finalizer group has state). */
  function GroupObjects(g: NodeGroup): set<FinalizerGroup> {
    if g.Finalizer? then {g.finalizer} else {}
  }

  /** `asOrdinal()`: none for the default group, the inherited ordinal for a finalizer group. */
  function AsOrdinal(g: NodeGroup): (r: Option<OrdinalGroup>)
    reads GroupObjects(g)
    ensures g.Default? ==> r.None?
    ensures g.Ordinal? ==> r == Some(g.group)
    ensures g.Finalizer? ==> r == g.finalizer.ordinal
  {
    match g
    case Default => None
    case Ordinal(o) => Some(o)
    case Finalizer(f) => f.ordinal
  }

  /** `asFinalizer()`: only a finalizer group answers with itself. */
  function AsFinalizer(g: NodeGroup): (r: Option<FinalizerGroup>)
    ensures r.Some? <==> g.Finalizer?
    ensures r.Some? ==> r.value == g.finalizer
  {
    if g.Finalizer? then Some(g.finalizer) else None
  }

  /**
   * `isEntryPoint()`: the default and finalizer groups keep the base answer
   * `false`; an ordinal group gives its own answer.
   */
  predicate IsEntryPoint(g: NodeGroup): (b: bool)
    ensures b ==> g.Ordinal?
    ensures g.Ordinal? ==> (b <==> g.group.entryPoint)
  {
    g.Ordinal? && g.group.entryPoint
  }

  /** The answers every group gets unless it overrides them. */
  lemma DefaultGroupAnswers()
    ensures AsOrdinal(Default) == None
    ensures AsFinalizer(Default) == None
    ensures !IsEntryPoint(Default)
    ensures forall f :: !IsEntryPoint(Finalizer(f))
    ensures forall o :: AsFinalizer(Ordinal(o)) == None && AsOrdinal(Ordinal(o)) == Some(o)
    ensures forall f :: AsFinalizer(Finalizer(f)) == Some(f)
  {
  }

  /**
   * The ordinal a finalizer group holds after `maybeInheritFrom`: the source's
   * ordinal is taken when there is one and it is strictly larger than the
   * current one (or there is no current one).
   */
  function Inherit(current: Option<OrdinalGroup>, from: Option<OrdinalGroup>): (r: Option<OrdinalGroup>)
    ensures r == current || r == from
    ensures from.None? ==> r == current
    ensures current.Some? ==> r.Some? && r.value.ordinal >= current.value.ordinal
    ensures from.Some? ==> r.Some? && r.value.ordinal >= from.value.ordinal
    ensures r != current ==> current.None? || current.value.ordinal < from.value.ordinal
  {
    if from.Some? && (current.None? || current.value.ordinal < from.value.ordinal) then from else current
  }

  /** Inheriting twice from the same source is the same as inheriting once. */
  lemma InheritIdempotent(current: Option<OrdinalGroup>, from: Option<OrdinalGroup>)
    ensures Inherit(Inherit(current, from), from) == Inherit(current, from)
    ensures Inherit(current, current) == current
  {
  }

  /** A smaller or equal source ordinal leaves the inherited ordinal alone. */
  lemma InheritNeverDowngrades(current: OrdinalGroup, from: OrdinalGroup)
    ensures from.ordinal <= current.ordinal ==> Inherit(Some(current), Some(from)) == Some(current)
    ensures current.ordinal < from.ordinal ==> Inherit(Some(current), Some(from)) == Some(from)
    ensures Inherit(Some(current), None) == Some(current)
  {
  }

  /**
   * The set of nodes reachable from one finalizer node. `members` is an
   * insertion-ordered set; `node` is the finalizer task that owns the group.
   */
  class FinalizerGroup {
    var ordinal: Option<OrdinalGroup>
    const node: NodeId
    var members: seq<NodeId>

    ghost predicate Valid()
      reads this
    {
      NoDuplicates(members)
    }

    /** A new group starts with the finalizer as its only member and inherits the source's ordinal. */
    constructor (node: NodeId, fromGroup: NodeGroup)
      ensures Valid()
      ensures this.node == node && members == [node]
      ensures ordinal == AsOrdinal(fromGroup)
    {
      ordinal := AsOrdinal(fromGroup);
      this.node := node;
      members := [node];
    }

    /** Raises the inherited ordinal to the source group's, never lowers it. */
    method MaybeInheritFrom(fromGroup: NodeGroup)
      modifies this`ordinal
      ensures ordinal == Inherit(old(ordinal), old(AsOrdinal(fromGroup)))
    {
      var o := AsOrdinal(fromGroup);
      if o.Some? && (ordinal.None? || ordinal.value.ordinal < o.value.ordinal) {
        ordinal := o;
      }
    }

    method AddMember(n: NodeId)
      requires Valid()
      modifies this`members
      ensures Valid()
      ensures members == Append(old(members), n)
    {
      if n !in members {
        members := members + [n];
      }
    }

    method RemoveMember(n: NodeId)
      requires Valid()
      modifies this`members
      ensures Valid()
      ensures members == Without(old(members), n)
    {
      WithoutKeepsShape(members, n);
      members := Without(members, n);
    }

    /**
     * `visitAllMembers`: the visitor is called once per member, in insertion
     * order; the result is the sequence of nodes it was called with.
     */
    method VisitAllMembers() returns (visited: seq<NodeId>)
      requires Valid()
      ensures visited == members && NoDuplicates(visited)
    {
      visited := [];
      for i := 0 to |members|
        invariant visited == members[..i]
      {
        visited := visited + [members[i]];
      }
    }
  }

  /** `addMember` dispatched on the variant: only a finalizer group records it. */
  method AddMemberTo(g: NodeGroup, n: NodeId)
    requires g.Finalizer? ==> g.finalizer.Valid()
    modifies GroupObjects(g)
    ensures g.Finalizer? ==> g.finalizer.Valid() && g.finalizer.members == Append(old(g.finalizer.members), n)
  {
    if g.Finalizer? {
      g.finalizer.AddMember(n);
    }
  }

  /** `removeMember` dispatched on the variant: only a finalizer group records it. */
  method RemoveMemberFrom(g: NodeGroup, n: NodeId)
    requires g.Finalizer? ==> g.finalizer.Valid()
    modifies GroupObjects(g)
    ensures g.Finalizer? ==> g.finalizer.Valid() && g.finalizer.members == Without(old(g.finalizer.members), n)
  {
    if g.Finalizer? {
      g.finalizer.RemoveMember(n);
    }
  }
}

/**
 * The synthetic barrier node that keeps destroyers and producers of different
 * command-line requests apart: its identity, the constant answers it gives in
 * place of a real unit of work, its ordering and its display name. How it
 * collects dependencies from task nodes is in module TaskNodes, next to the
 * hard-successor view it reads.
 */
module OrdinalNodes {
  import opened Wrappers

  datatype OrdinalType = Destroyer | Producer

  /** The two final fields given to the constructor. */
  datatype OrdinalNode = OrdinalNode(nodeType: OrdinalType, ordinal: int)

  /** Stand-ins for the Java types in the overridden signatures. */
  datatype Failure = Failure(message: string)
  datatype ResourceLock = ResourceLock(name: string)

  /** `getType()` and `getOrdinal()`: the two values the node was built with. */
  function GetType(n: OrdinalNode): (t: OrdinalType)
    ensures OrdinalNode(t, n.ordinal) == n
  {
    n.nodeType
  }

  function GetOrdinal(n: OrdinalNode): (k: int)
    ensures OrdinalNode(n.nodeType, k) == n
  {
    n.ordinal
  }

  /** `getNodeFailure()`: an ordinal node never fails. */
  function GetNodeFailure(n: OrdinalNode): (r: Option<Failure>)
    ensures r.None?
  {
    None
  }

  /** `getResourcesToLock()`: it locks nothing. */
  function GetResourcesToLock(n: OrdinalNode): (r: seq<ResourceLock>)
    ensures |r| == 0
  {
    []
  }

  /** `getProjectToLock()` and `getOwningProject()`: it belongs to no project. */
  function GetProjectToLock(n: OrdinalNode): (r: Option<ResourceLock>)
    ensures r.None?
  {
    None
  }

  function GetOwningProject(n: OrdinalNode): (r: Option<string>)
    ensures r.None?
  {
    None
  }

  /** `rethrowNodeFailure()`: there is never a failure to rethrow. */
  method RethrowNodeFailure(n: OrdinalNode) returns (thrown: Option<Failure>)
    ensures thrown.None?
  {
    thrown := None;
  }

  /**
   * `resolveDependencies(resolver, processHardSuccessor)`: the action is never
   * called; the result is the indices of the nodes it was handed.
   */
  method ResolveDependencies(n: OrdinalNode) returns (processed: seq<nat>)
    ensures |processed| == 0
  {
    processed := [];
  }

  /** `execute(context)`: no work, no state changed (there is nothing it may modify). */
  method Execute(n: OrdinalNode) {
  }

  /** `compareTo(o)`: -1 whatever the other node is. */
  function CompareTo(n: OrdinalNode, otherKey: nat): (r: int)
    ensures r == -1
  {
    -1
  }

  /**
   * `compareTo` does not obey the `Comparable` contract between two ordinal
   * nodes: a node compared with itself answers -1 rather than 0, and both
   * orders of a pair answer -1.
   */
  lemma CompareToIsNotAntisymmetric(n: OrdinalNode, m: OrdinalNode, nKey: nat, mKey: nat)
    ensures CompareTo(n, nKey) != 0
    ensures CompareTo(n, mKey) == CompareTo(m, nKey) == -1
  {
  }

  /** `type.name().toLowerCase()`. */
  function TypeName(t: OrdinalType): string {
    match t
    case Destroyer => "destroyer"
    case Producer => "producer"
  }

  const Infix := " locations for task group "

  /**
   * `toString()`: the lower-cased type name, the fixed infix, then the ordinal
   * in decimal. The name determines the node's identity: it reads back exactly.
   */
  function ToString(n: OrdinalNode): (r: string)
    ensures ParseName(r) == Some(n)
  {
    NameRoundTrip(n.nodeType, n.ordinal);
    TypeName(n.nodeType) + Infix + IntToString(n.ordinal)
  }

  // Decimal rendering of an int, as `String.valueOf(int)` writes it.

  predicate IsDigit(c: char) { '0' <= c <= '9' }

  function Digit(d: nat): (c: char)
    requires d < 10
    ensures IsDigit(c) && DigitValue(c) == d
  {
    "0123456789"[d]
  }

  function DigitValue(c: char): nat
    requires IsDigit(c)
  {
    (c as int - '0' as int) as nat
  }

  /** Canonical decimal text: digits only, with no leading zero unless the number is 0. */
  function NatToString(n: nat): (r: string)
    ensures |r| > 0 && forall i :: 0 <= i < |r| ==> IsDigit(r[i])
    ensures r[0] == '0' <==> n == 0
    ensures n == 0 ==> r == "0"
    decreases n
  {
    if n < 10 then [Digit(n)] else NatToString(n / 10) + [Digit(n % 10)]
  }

  /** `String.valueOf(int)`: a minus sign before a negative value's digits, and no leading zero. */
  function IntToString(i: int): (r: string)
    ensures |r| > 0
    ensures r[0] == '0' ==> r == "0"
    ensures i < 0 <==> r[0] == '-'
    ensures i < 0 ==> |r| > 1 && r[1] != '0'
  {
    if i < 0 then "-" + NatToString(-i) else NatToString(i)
  }

  /** Reads back a run of decimal digits (the empty run reads as 0). */
  function ParseNat(s: string): nat
    requires forall i :: 0 <= i < |s| ==> IsDigit(s[i])
  {
    if s == [] then 0 else ParseNat(s[..|s| - 1]) * 10 + DigitValue(s[|s| - 1])
  }

  function ParseInt(s: string): Option<int> {
    if |s| > 1 && s[0] == '-' && forall i :: 1 <= i < |s| ==> IsDigit(s[i]) then Some(0 - ParseNat(s[1..]) as int)
    else if |s| > 0 && forall i :: 0 <= i < |s| ==> IsDigit(s[i]) then Some(ParseNat(s))
    else None
  }

  lemma {:induction false} NatRoundTrip(n: nat)
    ensures ParseNat(NatToString(n)) == n
    decreases n
  {
    if n >= 10 {
      NatRoundTrip(n / 10);
      var s := NatToString(n);
      assert s[..|s| - 1] == NatToString(n / 10);
    }
  }

  /** The decimal text of the ordinal reads back as the ordinal. */
  lemma IntRoundTrip(i: int)
    ensures ParseInt(IntToString(i)) == Some(i)
  {
    if i < 0 {
      NegativeRoundTrip(-i);
    } else {
      NonNegativeRoundTrip(i);
    }
  }

  lemma NonNegativeRoundTrip(n: nat)
    ensures ParseInt(NatToString(n)) == Some(n)
  {
    var s := NatToString(n);
    NatRoundTrip(n);
    assert s[0] != '-' by { assert IsDigit(s[0]); }
  }

  lemma NegativeRoundTrip(n: nat)
    requires n > 0
    ensures ParseInt("-" + NatToString(n)) == Some(0 - n)
  {
    var t := NatToString(n);
    var s := "-" + t;
    NatRoundTrip(n);
    assert s[1..] == t;
    forall k | 1 <= k < |s| ensures IsDigit(s[k]) {
      assert s[k] == t[k - 1];
    }
  }

  /** Reads a display name back into the identity it was made from. */
  function ParseName(s: string): Option<OrdinalNode> {
    var d, p := TypeName(Destroyer) + Infix, TypeName(Producer) + Infix;
    if |s| >= |d| && s[..|d|] == d then
      match ParseInt(s[|d|..])
      case Some(k) => Some(OrdinalNode(Destroyer, k))
      case None => None
    else if |s| >= |p| && s[..|p|] == p then
      match ParseInt(s[|p|..])
      case Some(k) => Some(OrdinalNode(Producer, k))
      case None => None
    else None
  }

  lemma NameRoundTrip(t: OrdinalType, k: int)
    ensures ParseName(TypeName(t) + Infix + IntToString(k)) == Some(OrdinalNode(t, k))
  {
    var s := TypeName(t) + Infix + IntToString(k);
    IntRoundTrip(k);
    var d, p := TypeName(Destroyer) + Infix, TypeName(Producer) + Infix;
    if t == Destroyer {
      assert s[..|d|] == d && s[|d|..] == IntToString(k);
    } else {
      assert s[..|p|] == p && s[|p|..] == IntToString(k);
      assert s[..|d|] != d by { assert s[0] != d[0]; }
    }
  }

  /** Two ordinal nodes with the same display name have the same type and ordinal. */
  lemma ToStringInjective(n: OrdinalNode, m: OrdinalNode)
    ensures ToString(n) == ToString(m) ==> n == m
  {
  }
}

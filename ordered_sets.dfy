/**
 * Sets of nodes as the planner keeps them.
 *
 * A `TreeSet<Node>` is modelled as a set of node indices (the index is the
 * node's sort key); its iteration order is `Ascending`, the strictly
 * increasing enumeration of the set, and the `descendingSet()` view is the
 * reverse of that. An insertion ordered `LinkedHashSet<Node>` is modelled as
 * a sequence without duplicates.
 */
module OrderedSets {

  /** Iteration order of a `TreeSet`: every element strictly below the next. */
  ghost predicate Increasing(s: seq<nat>) {
    forall i, j :: 0 <= i < j < |s| ==> s[i] < s[j]
  }

  /** Iteration order of a `descendingSet()` view. */
  ghost predicate Decreasing(s: seq<nat>) {
    forall i, j :: 0 <= i < j < |s| ==> s[i] > s[j]
  }

  /** Set semantics: no element occurs twice. */
  ghost predicate NoDuplicates(s: seq<nat>) {
    forall i, j :: 0 <= i < j < |s| ==> s[i] != s[j]
  }

  /** `m` is no larger than any element of `s`. */
  predicate IsLowerBound(m: nat, s: set<nat>) {
    forall y :: y in s ==> m <= y
  }

  /** `r` holds exactly the elements of `s`. */
  ghost predicate Enumerates(r: seq<nat>, s: set<nat>) {
    forall y :: y in r <==> y in s
  }

  /** A non-empty set of node indices has a least element. */
  lemma {:induction false} LeastExists(s: set<nat>)
    requires s != {}
    ensures exists m :: m in s && IsLowerBound(m, s)
  {
    var x :| x in s;
    if s == {x} {
      assert IsLowerBound(x, s);
    } else {
      var rest := s - {x};
      LeastExists(rest);
      var m :| m in rest && IsLowerBound(m, rest);
      var least := if x < m then x else m;
      forall y | y in s ensures least <= y {
        if y != x {
          assert y in rest;
        }
      }
      assert least in s && IsLowerBound(least, s);
    }
  }

  /** The first node a `TreeSet` yields. */
  function Least(s: set<nat>): (m: nat)
    requires s != {}
    ensures m in s && IsLowerBound(m, s)
  {
    LeastExists(s);
    var m :| m in s && IsLowerBound(m, s);
    m
  }

  /** Iteration over a `TreeSet`: each element once, smallest first. */
  function Ascending(s: set<nat>): (r: seq<nat>)
    ensures Increasing(r) && Enumerates(r, s)
    ensures |r| == |s|
    decreases |s|
  {
    if s == {} then []
    else
      var m := Least(s);
      [m] + Ascending(s - {m})
  }

  /** `TreeSet.add`: the element lands at its sorted position, once. */
  function Insert(s: seq<nat>, x: nat): (r: seq<nat>)
    ensures forall y :: y in r <==> y in s || y == x
  {
    if s == [] then [x]
    else if x < s[0] then [x] + s
    else if x == s[0] then s
    else [s[0]] + Insert(s[1..], x)
  }

  /** Inserting into an ordered set keeps it ordered, and adding an element already there changes nothing. */
  lemma {:induction false} InsertKeepsIncreasing(s: seq<nat>, x: nat)
    requires Increasing(s)
    ensures Increasing(Insert(s, x))
    ensures x in s ==> Insert(s, x) == s
  {
    if s == [] {
    } else if x < s[0] {
      forall y | y in s ensures x < y {
        HeadIsLeast(s, y);
      }
      ConsIncreasing(x, s);
    } else if x > s[0] {
      var tail := s[1..];
      InsertKeepsIncreasing(tail, x);
      var rest := Insert(tail, x);
      forall y | y in rest ensures s[0] < y {
        BeyondHead(s, x, y);
      }
      ConsIncreasing(s[0], rest);
      if x in s {
        assert s == [s[0]] + tail;
        assert x in tail;
      }
    }
  }

  /** A head below every element of an ordered sequence extends it to an ordered sequence. */
  lemma ConsIncreasing(h: nat, rest: seq<nat>)
    requires Increasing(rest) && forall y :: y in rest ==> h < y
    ensures Increasing([h] + rest)
  {
    var r := [h] + rest;
    forall i, j | 0 <= i < j < |r| ensures r[i] < r[j] {
      assert r[j] == rest[j - 1] && rest[j - 1] in rest;
      if i > 0 {
        assert r[i] == rest[i - 1];
      }
    }
  }

  /** Everything in an ordered set's tail, and any larger candidate, lies above its head. */
  lemma BeyondHead(s: seq<nat>, x: nat, y: nat)
    requires Increasing(s) && s != [] && x > s[0] && (y in s[1..] || y == x)
    ensures s[0] < y
  {
    if y != x {
      var k :| 0 <= k < |s[1..]| && s[1..][k] == y;
      assert s[k + 1] == y;
    }
  }

  /** `Set.remove` on an ordered set: the element goes, the rest keep their order. */
  function Without(s: seq<nat>, x: nat): (r: seq<nat>)
    ensures forall y :: y in r <==> y in s && y != x
    ensures x !in s ==> r == s
    ensures |r| <= |s|
  {
    if s == [] then []
    else if s[0] == x then Without(s[1..], x)
    else [s[0]] + Without(s[1..], x)
  }

  /** Removing an element keeps an ordered set ordered and a set duplicate-free. */
  lemma WithoutKeepsShape(s: seq<nat>, x: nat)
    ensures Increasing(s) ==> Increasing(Without(s, x))
    ensures NoDuplicates(s) ==> NoDuplicates(Without(s, x))
  {
    if Increasing(s) {
      WithoutKeepsIncreasing(s, x);
    }
    if NoDuplicates(s) {
      WithoutKeepsNoDuplicates(s, x);
    }
  }

  lemma {:induction false} WithoutKeepsIncreasing(s: seq<nat>, x: nat)
    requires Increasing(s)
    ensures Increasing(Without(s, x))
  {
    if s != [] {
      WithoutKeepsIncreasing(s[1..], x);
      if s[0] != x {
        var rest := Without(s[1..], x);
        forall y | y in rest ensures s[0] < y {
          BeyondHead(s, y + 1, y);
        }
        ConsIncreasing(s[0], rest);
      }
    }
  }

  lemma {:induction false} WithoutKeepsNoDuplicates(s: seq<nat>, x: nat)
    requires NoDuplicates(s)
    ensures NoDuplicates(Without(s, x))
  {
    if s != [] {
      WithoutKeepsNoDuplicates(s[1..], x);
      if s[0] != x {
        var rest := Without(s[1..], x);
        assert forall k :: 0 <= k < |rest| ==> rest[k] in rest && rest[k] in s[1..];
        assert s[0] !in s[1..];
        assert Without(s, x) == [s[0]] + rest;
      }
    }
  }

  /** In a set without duplicates, `Without` removes exactly the one occurrence. */
  lemma {:induction false} WithoutRemovesOne(s: seq<nat>, i: nat)
    requires i < |s| && NoDuplicates(s)
    ensures Without(s, s[i]) == s[..i] + s[i + 1..]
  {
    var t := s[1..];
    TailHasNoDuplicates(s);
    if i == 0 {
      assert s[..i] + s[i + 1..] == t;
    } else {
      var x := s[i];
      assert t[i - 1] == x;
      assert Without(s, x) == [s[0]] + Without(t, x) by {
        assert s[0] != s[i];
      }
      assert Without(t, x) == t[..i - 1] + t[i..] by {
        WithoutRemovesOne(t, i - 1);
      }
      SplitAround(s, i);
    }
  }

  /** Regrouping `s` around position `i` after its head. */
  lemma SplitAround(s: seq<nat>, i: nat)
    requires 0 < i < |s|
    ensures [s[0]] + (s[1..][..i - 1] + s[1..][i..]) == s[..i] + s[i + 1..]
  {
    assert s[1..][..i - 1] == s[1..i] && s[1..][i..] == s[i + 1..];
    assert [s[0]] + s[1..i] == s[..i];
  }

  lemma TailHasNoDuplicates(s: seq<nat>)
    requires s != [] && NoDuplicates(s)
    ensures NoDuplicates(s[1..]) && s[0] !in s[1..]
  {
    forall j | 0 <= j < |s| - 1 ensures s[1..][j] != s[0] {
      assert s[1..][j] == s[j + 1];
    }
  }

  /** `LinkedHashSet.add`: appended at the end unless already present. */
  function Append(s: seq<nat>, x: nat): (r: seq<nat>)
    requires NoDuplicates(s)
    ensures NoDuplicates(r)
    ensures forall y :: y in r <==> y in s || y == x
    ensures |r| >= |s| && r[..|s|] == s
    ensures x in s ==> r == s
    ensures x !in s ==> r[|s|..] == [x]
  {
    if x in s then s else s + [x]
  }

  function Reverse(s: seq<nat>): (r: seq<nat>)
    ensures |r| == |s|
    ensures forall i :: 0 <= i < |s| ==> r[i] == s[|s| - 1 - i]
  {
    if s == [] then [] else Reverse(s[1..]) + [s[0]]
  }

  /** The descending view of an ordered set holds the same elements, largest first. */
  lemma ReverseOfIncreasing(s: seq<nat>)
    requires Increasing(s)
    ensures Decreasing(Reverse(s))
    ensures forall y :: y in Reverse(s) <==> y in s
    ensures multiset(Reverse(s)) == multiset(s)
  {
    var r := Reverse(s);
    forall y | y in s ensures y in r {
      var i :| 0 <= i < |s| && s[i] == y;
      assert r[|s| - 1 - i] == y;
    }
    ReverseSameMultiset(s);
  }

  lemma {:induction false} ReverseSameMultiset(s: seq<nat>)
    ensures multiset(Reverse(s)) == multiset(s)
  {
    if s != [] {
      ReverseSameMultiset(s[1..]);
      assert s == [s[0]] + s[1..];
    }
  }

  /** Reversal turns a concatenation around. */
  lemma {:induction false} ReverseOfConcat(a: seq<nat>, b: seq<nat>)
    ensures Reverse(a + b) == Reverse(b) + Reverse(a)
  {
    var l, r := Reverse(a + b), Reverse(b) + Reverse(a);
    assert |l| == |r|;
    forall i | 0 <= i < |l| ensures l[i] == r[i] {
      if i < |b| {
        assert l[i] == (a + b)[|a| + |b| - 1 - i] == b[|b| - 1 - i];
      } else {
        assert l[i] == (a + b)[|a| + |b| - 1 - i] == a[|a| - 1 - (i - |b|)];
      }
    }
  }

  /**
   * An ordered set is determined by its elements: two increasing sequences
   * with the same elements are equal, so a contract that fixes the elements
   * of a `TreeSet` fixes its iteration order too.
   */
  lemma {:induction false} IncreasingDeterminedByElements(a: seq<nat>, b: seq<nat>)
    requires Increasing(a) && Increasing(b)
    requires forall y :: y in a <==> y in b
    ensures a == b
  {
    if a == [] {
      if b != [] {
        HeadIsElement(b);
        assert false;
      }
    } else if b == [] {
      HeadIsElement(a);
      assert false;
    } else {
      HeadIsLeast(a, b[0]);
      HeadIsLeast(b, a[0]);
      forall y ensures y in a[1..] <==> y in b[1..] {
        if y in a[1..] {
          var i :| 1 <= i < |a| && a[i] == y;
          assert y in b && y != b[0];
        }
        if y in b[1..] {
          var i :| 1 <= i < |b| && b[i] == y;
          assert y in a && y != a[0];
        }
      }
      IncreasingDeterminedByElements(a[1..], b[1..]);
      assert a == [a[0]] + a[1..] && b == [b[0]] + b[1..];
    }
  }

  /** Adding to a `TreeSet` puts the new element at its sorted place in the iteration. */
  lemma AscendingAdd(s: set<nat>, x: nat)
    ensures Ascending(s + {x}) == Insert(Ascending(s), x)
  {
    InsertKeepsIncreasing(Ascending(s), x);
    IncreasingDeterminedByElements(Ascending(s + {x}), Insert(Ascending(s), x));
  }

  /** Removing from a `TreeSet` drops the element from the iteration and keeps the rest in order. */
  lemma AscendingRemove(s: set<nat>, x: nat)
    ensures Ascending(s - {x}) == Without(Ascending(s), x)
  {
    WithoutKeepsShape(Ascending(s), x);
    IncreasingDeterminedByElements(Ascending(s - {x}), Without(Ascending(s), x));
  }

  /** Reversing four concatenated parts reverses each and puts them in the opposite order. */
  lemma ReverseOfFour(a: seq<nat>, b: seq<nat>, c: seq<nat>, d: seq<nat>)
    ensures Reverse(a + b + c + d) == Reverse(d) + Reverse(c) + Reverse(b) + Reverse(a)
  {
    ReverseOfConcat(a + b + c, d);
    ReverseOfConcat(a + b, c);
    ReverseOfConcat(a, b);
    GroupLeft(Reverse(d), Reverse(c), Reverse(b), Reverse(a));
  }

  /** Concatenation regroups: the first part can be split off a chain of four. */
  lemma SplitFirst(a: seq<nat>, b: seq<nat>, c: seq<nat>, d: seq<nat>)
    ensures a + b + c + d == a + (b + c + d)
  {
  }

  lemma GroupLeft(a: seq<nat>, b: seq<nat>, c: seq<nat>, d: seq<nat>)
    ensures a + (b + (c + d)) == a + b + c + d
  {
  }

  lemma HeadIsLeast(s: seq<nat>, y: nat)
    requires Increasing(s) && y in s
    ensures s[0] <= y
  {
  }

  lemma HeadIsElement(s: seq<nat>)
    ensures s != [] ==> s[0] in s
  {
  }
}

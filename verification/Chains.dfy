/** Chains and cycles of a relation, and what a finite set without cycles must have. */
module Chains {

  /** Each element of p is related to the next. */
  ghost predicate IsChain<T(!new)>(r: (T, T) -> bool, p: seq<T>) {
    forall i, j :: 0 <= i && j == i + 1 < |p| ==> r(p[i], p[j])
  }

  /** A chain of at least one step that comes back to where it began. */
  ghost predicate IsCycle<T(!new)>(r: (T, T) -> bool, p: seq<T>) {
    2 <= |p| && p[0] == p[|p| - 1] && IsChain(r, p)
  }

  ghost predicate Acyclic<T(!new)>(r: (T, T) -> bool) {
    forall p: seq<T> :: !IsCycle(r, p)
  }

  /** Nothing in s is related to x. */
  ghost predicate IsSource<T(!new)>(r: (T, T) -> bool, s: set<T>, x: T) {
    x in s && forall y :: y in s ==> !r(y, x)
  }

  /** Every finite, non-empty set has an element no other is related to, when the relation has no cycle. */
  lemma SourceExists<T(!new)>(r: (T, T) -> bool, s: set<T>) returns (x: T)
    requires Acyclic(r) && s != {}
    ensures IsSource(r, s, x)
  {
    var first :| first in s;
    x := Climb(r, s, [first], s - {first});
  }

  /** A chain whose first element some later one of it, or itself, is related to has a cycle. */
  lemma ClosesCycle<T(!new)>(r: (T, T) -> bool, p: seq<T>, i: nat)
    requires i < |p| && IsChain(r, p) && r(p[i], p[0])
    ensures IsCycle(r, [p[i]] + p[..i + 1])
  {
  }

  /** Follows the relation backwards from a chain, whose elements are those of s not in rest. */
  lemma Climb<T(!new)>(r: (T, T) -> bool, s: set<T>, p: seq<T>, rest: set<T>) returns (x: T)
    requires Acyclic(r)
    requires p != [] && IsChain(r, p)
    requires forall e :: e in s <==> e in p || e in rest
    ensures IsSource(r, s, x)
    decreases rest
  {
    if y :| y in s && r(y, p[0]) {
      if i :| 0 <= i < |p| && p[i] == y {
        ClosesCycle(r, p, i);
        assert false;
      } else {
        x := Climb(r, s, [y] + p, rest - {y});
      }
    } else {
      x := p[0];
    }
  }
}

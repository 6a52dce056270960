/** Sequences put together piece by piece. */
module Lists {

  /** What each element is taken as, one after another. */
  function Flat<T, U>(s: seq<T>, f: T -> seq<U>): seq<U> {
    if s == [] then [] else Flat(s[..|s| - 1], f) + f(s[|s| - 1])
  }

  lemma FlatJoins<T, U>(s: seq<T>, f: T -> seq<U>, i: nat)
    requires i < |s|
    ensures Flat(s[..i + 1], f) == Flat(s[..i], f) + f(s[i])
  {
    assert s[..i + 1][..i] == s[..i];
  }

  lemma {:induction false} FlatSingles<T, U>(s: seq<T>, f: T -> seq<U>, singles: seq<U>)
    requires |singles| == |s| && forall i :: 0 <= i < |s| ==> f(s[i]) == [singles[i]]
    ensures Flat(s, f) == singles
  {
    if s != [] {
      FlatSingles(s[..|s| - 1], f, singles[..|s| - 1]);
    }
  }

  lemma {:induction false} FlatNone<T, U>(s: seq<T>, f: T -> seq<U>)
    requires forall i :: 0 <= i < |s| ==> f(s[i]) == []
    ensures Flat(s, f) == []
  {
    if s != [] {
      FlatNone(s[..|s| - 1], f);
    }
  }
}

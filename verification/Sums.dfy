/** Sums over sets and sequences, and a sequence's sum regrouped by key. */
module Sums {
  ghost function Sum<K(!new)>(keys: set<K>, f: K -> real): real {
    if keys == {} then 0.0
    else
      var k :| k in keys;
      Sum(keys - {k}, f) + f(k)
  }

  lemma {:induction false} SumAdds<K(!new)>(keys: set<K>, k: K, f: K -> real)
    requires k in keys
    ensures Sum(keys, f) == Sum(keys - {k}, f) + f(k)
  {
    var c :| c in keys && Sum(keys, f) == Sum(keys - {c}, f) + f(c);
    if c != k {
      SumAdds(keys - {c}, k, f);
      SumAdds(keys - {k}, c, f);
      assert keys - {c} - {k} == keys - {k} - {c};
    }
  }

  lemma SumJoins<K(!new)>(keys: set<K>, k: K, f: K -> real)
    requires k !in keys
    ensures Sum(keys + {k}, f) == Sum(keys, f) + f(k)
  {
    SumAdds(keys + {k}, k, f);
    assert keys + {k} - {k} == keys;
  }

  lemma {:induction false} SumCompares<K(!new)>(keys: set<K>, f: K -> real, g: K -> real)
    requires forall k :: k in keys ==> f(k) <= g(k)
    ensures Sum(keys, f) <= Sum(keys, g)
  {
    if keys != {} {
      var k :| k in keys;
      SumAdds(keys, k, f);
      SumAdds(keys, k, g);
      SumCompares(keys - {k}, f, g);
    }
  }

  lemma SumSame<K(!new)>(keys: set<K>, f: K -> real, g: K -> real)
    requires forall k :: k in keys ==> f(k) == g(k)
    ensures Sum(keys, f) == Sum(keys, g)
  {
  }

  lemma {:induction false} SumOfSums<K(!new)>(keys: set<K>, f: K -> real, g: K -> real, h: K -> real)
    requires forall k :: k in keys ==> h(k) == f(k) + g(k)
    ensures Sum(keys, h) == Sum(keys, f) + Sum(keys, g)
  {
    if keys != {} {
      var k :| k in keys;
      SumAdds(keys, k, f);
      SumAdds(keys, k, g);
      SumAdds(keys, k, h);
      SumOfSums(keys - {k}, f, g, h);
    }
  }

  // Sums of sequences

  ghost function SeqSum<T(!new)>(s: seq<T>, f: T -> real): real {
    if s == [] then 0.0 else SeqSum(s[..|s| - 1], f) + f(s[|s| - 1])
  }

  /** The sum over the entries with a key. */
  ghost function KeyedSum<T(!new), K(!new)>(s: seq<T>, key: T -> K, k: K, f: T -> real): real {
    if s == [] then 0.0
    else
      var last := s[|s| - 1];
      KeyedSum(s[..|s| - 1], key, k, f) + if key(last) == k then f(last) else 0.0
  }

  lemma {:induction false} KeyedSumJoins<T(!new), K(!new)>(s: seq<T>, t: seq<T>, key: T -> K, k: K, f: T -> real)
    ensures KeyedSum(s + t, key, k, f) == KeyedSum(s, key, k, f) + KeyedSum(t, key, k, f)
    decreases |t|
  {
    if t == [] {
      assert s + t == s;
    } else {
      KeyedSumJoins(s, t[..|t| - 1], key, k, f);
      assert (s + t)[..|s + t| - 1] == s + t[..|t| - 1];
    }
  }

  /** Grouping entries by key doesn't change what they come to. */
  lemma {:induction false} GroupsSum<T(!new), K(!new)>(keys: set<K>, s: seq<T>, key: T -> K, f: T -> real)
    requires forall t :: t in s ==> key(t) in keys
    ensures Sum(keys, k => KeyedSum(s, key, k, f)) == SeqSum(s, f)
    decreases |s|
  {
    var all := (k: K) => KeyedSum(s, key, k, f);
    if s == [] {
      ZeroSum(keys, all);
    } else {
      var last := s[|s| - 1];
      var before := (k: K) => KeyedSum(s[..|s| - 1], key, k, f);
      var own := (k: K) => if key(last) == k then f(last) else 0.0;
      GroupsSum(keys, s[..|s| - 1], key, f);
      SumOfSums(keys, before, own, all);
      SumAdds(keys, key(last), own);
      ZeroSum(keys - {key(last)}, own);
    }
  }

  lemma {:induction false} ZeroSum<K(!new)>(keys: set<K>, f: K -> real)
    requires forall k :: k in keys ==> f(k) == 0.0
    ensures Sum(keys, f) == 0.0
  {
    if keys != {} {
      var k :| k in keys;
      SumAdds(keys, k, f);
      ZeroSum(keys - {k}, f);
    }
  }

  ghost predicate Additive(g: real -> real) {
    g(0.0) == 0.0 && forall x, y :: AddsAt(g, x, y)
  }

  ghost predicate AddsAt(g: real -> real, x: real, y: real) {
    g(x + y) == g(x) + g(y)
  }

  lemma {:induction false} KeyedSumScales<T(!new), K(!new)>(s: seq<T>, key: T -> K, k: K, f: T -> real, g: T -> real,
                                                            scale: real -> real)
    requires Additive(scale)
    requires forall t :: t in s && key(t) == k ==> g(t) == scale(f(t))
    ensures KeyedSum(s, key, k, g) == scale(KeyedSum(s, key, k, f))
    decreases |s|
  {
    if s != [] {
      KeyedSumScales(s[..|s| - 1], key, k, f, g, scale);
      var last := s[|s| - 1];
      if key(last) == k {
        assert AddsAt(scale, KeyedSum(s[..|s| - 1], key, k, f), f(last));
      }
    }
  }

  lemma {:induction false} KeyedSumCompares<T(!new), K(!new)>(s: seq<T>, key: T -> K, k: K, f: T -> real, g: T -> real)
    requires forall t :: t in s && key(t) == k ==> f(t) <= g(t)
    ensures KeyedSum(s, key, k, f) <= KeyedSum(s, key, k, g)
    decreases |s|
  {
    if s != [] {
      KeyedSumCompares(s[..|s| - 1], key, k, f, g);
    }
  }

  lemma {:induction false} KeyedSumIsNonNegative<T(!new), K(!new)>(s: seq<T>, key: T -> K, k: K, f: T -> real)
    requires forall t :: t in s && key(t) == k ==> f(t) >= 0.0
    ensures KeyedSum(s, key, k, f) >= 0.0
    decreases |s|
  {
    if s != [] {
      KeyedSumIsNonNegative(s[..|s| - 1], key, k, f);
    }
  }

  lemma {:induction false} KeyedSumSame<T(!new), K(!new)>(s: seq<T>, t: seq<T>, key: T -> K, k: K, f: T -> real)
    requires |s| == |t| && forall i :: 0 <= i < |s| ==> key(s[i]) == key(t[i]) && f(s[i]) == f(t[i])
    ensures KeyedSum(s, key, k, f) == KeyedSum(t, key, k, f)
    decreases |s|
  {
    if s != [] {
      KeyedSumSame(s[..|s| - 1], t[..|t| - 1], key, k, f);
    }
  }
}

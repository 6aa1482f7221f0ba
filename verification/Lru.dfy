/** Recency lists: a sequence that holds each key of a table exactly once. */
module Lru {

  ghost predicate Distinct<K>(xs: seq<K>) {
    xs == [] || (xs[0] !in xs[1..] && Distinct(xs[1..]))
  }

  /** `xs` lists the members of `keys`, each once. */
  ghost predicate Lists<K(!new)>(xs: seq<K>, keys: set<K>) {
    Distinct(xs) && forall k :: k in xs <==> k in keys
  }

  function Without<K(==)>(xs: seq<K>, k: K): seq<K> {
    if xs == [] then []
    else if xs[0] == k then Without(xs[1..], k)
    else [xs[0]] + Without(xs[1..], k)
  }

  lemma {:induction false} WithoutMembers<K(!new)>(xs: seq<K>, k: K)
    ensures forall x :: x in Without(xs, k) <==> x in xs && x != k
    ensures |Without(xs, k)| <= |xs|
    ensures k in xs ==> |Without(xs, k)| < |xs|
  {
    if xs != [] {
      WithoutMembers(xs[1..], k);
      assert xs == [xs[0]] + xs[1..];
    }
  }

  lemma {:induction false} WithoutDistinct<K(!new)>(xs: seq<K>, k: K)
    requires Distinct(xs)
    ensures Distinct(Without(xs, k))
  {
    if xs != [] {
      WithoutDistinct(xs[1..], k);
      WithoutMembers(xs[1..], k);
      if xs[0] != k {
        assert Without(xs, k)[1..] == Without(xs[1..], k);
      }
    }
  }

  lemma {:induction false} WithoutAbsent<K>(xs: seq<K>, k: K)
    requires k !in xs
    ensures Without(xs, k) == xs
  {
    if xs != [] {
      WithoutAbsent(xs[1..], k);
    }
  }

  /** Taking a key out leaves the others in their order. */
  lemma {:induction false} WithoutSplits<K(!new)>(xs: seq<K>, i: nat)
    requires Distinct(xs) && i < |xs|
    ensures Without(xs, xs[i]) == xs[..i] + xs[i + 1..]
  {
    if i == 0 {
      WithoutAbsent(xs[1..], xs[0]);
    } else {
      assert xs[i] in xs[1..];
      WithoutSplits(xs[1..], i - 1);
      assert xs[1..][i - 1] == xs[i];
      assert xs[..i] == [xs[0]] + xs[1..][..i - 1] && xs[i + 1..] == xs[1..][i..];
    }
  }

  lemma {:induction false} DistinctAppend<K>(xs: seq<K>, k: K)
    requires Distinct(xs) && k !in xs
    ensures Distinct(xs + [k])
  {
    if xs != [] {
      DistinctAppend(xs[1..], k);
      assert (xs + [k])[1..] == xs[1..] + [k];
    }
  }

  lemma {:induction false} DistinctInit<K>(xs: seq<K>)
    requires xs != [] && Distinct(xs)
    ensures Distinct(xs[..|xs| - 1]) && xs[|xs| - 1] !in xs[..|xs| - 1]
  {
    var init := xs[..|xs| - 1];
    if |xs| > 1 {
      DistinctInit(xs[1..]);
      assert init[1..] == xs[1..][..|xs| - 2];
      assert init == [xs[0]] + init[1..];
      assert xs[|xs| - 1] == xs[1..][|xs| - 2] && xs[|xs| - 1] in xs[1..];
      assert forall x | x in init[1..] :: x in xs[1..];
    }
  }

  lemma {:induction false} ListsSize<K(!new)>(xs: seq<K>, keys: set<K>)
    requires Lists(xs, keys)
    ensures |xs| == |keys|
  {
    if xs == [] {
      assert keys == {};
    } else {
      assert xs == [xs[0]] + xs[1..];
      ListsSize(xs[1..], keys - {xs[0]});
    }
  }

  lemma ListsRemove<K(!new)>(xs: seq<K>, keys: set<K>, k: K)
    requires Lists(xs, keys)
    ensures Lists(Without(xs, k), keys - {k})
  {
    WithoutDistinct(xs, k);
    WithoutMembers(xs, k);
  }

  lemma ListsPushFront<K(!new)>(xs: seq<K>, keys: set<K>, k: K)
    requires Lists(xs, keys) && k !in keys
    ensures Lists([k] + xs, keys + {k})
  {
    assert ([k] + xs)[1..] == xs;
  }

  lemma ListsPushBack<K(!new)>(xs: seq<K>, keys: set<K>, k: K)
    requires Lists(xs, keys) && k !in keys
    ensures Lists(xs + [k], keys + {k})
  {
    DistinctAppend(xs, k);
  }

  lemma ListsToFront<K(!new)>(xs: seq<K>, keys: set<K>, k: K)
    requires Lists(xs, keys) && k in keys
    ensures Lists([k] + Without(xs, k), keys)
  {
    ListsRemove(xs, keys, k);
    ListsPushFront(Without(xs, k), keys - {k}, k);
    assert keys - {k} + {k} == keys;
  }

  lemma ListsToBack<K(!new)>(xs: seq<K>, keys: set<K>, k: K)
    requires Lists(xs, keys) && k in keys
    ensures Lists(Without(xs, k) + [k], keys)
  {
    ListsRemove(xs, keys, k);
    ListsPushBack(Without(xs, k), keys - {k}, k);
    assert keys - {k} + {k} == keys;
  }

  lemma ListsPopFront<K(!new)>(xs: seq<K>, keys: set<K>)
    requires Lists(xs, keys) && xs != []
    ensures xs[0] in keys && Lists(xs[1..], keys - {xs[0]})
  {
    assert xs == [xs[0]] + xs[1..];
  }

  lemma ListsPopBack<K(!new)>(xs: seq<K>, keys: set<K>)
    requires Lists(xs, keys) && xs != []
    ensures var k := xs[|xs| - 1]; k in keys && Lists(xs[..|xs| - 1], keys - {k})
  {
    DistinctInit(xs);
    assert xs == xs[..|xs| - 1] + [xs[|xs| - 1]];
  }
}

/**
 * Go map semantics the command builders rely on: a map value may be nil, and
 * `for k := range m` visits every key exactly once in an unspecified order.
 * An iteration order is modelled as an enumeration of the key set, and sums
 * taken along an order are shown not to depend on which order was used.
 */
module GoMaps {

  /** A Go map or slice that may be nil. */
  datatype Option<T> = None | Some(value: T)

  /**
   * `order` lists every element of `keys` exactly once (one possible map
   * iteration order). The first conjunct follows from the second; it is stated
   * so that lookups along `order` are evidently defined.
   */
  predicate IsEnumeration<K>(order: seq<K>, keys: set<K>)
  {
    && (forall k :: k in order ==> k in keys)
    && multiset(order) == multiset(keys)
  }

  lemma EnumerationMembers<K>(order: seq<K>, keys: set<K>)
    requires IsEnumeration(order, keys)
    ensures forall k :: k in order <==> k in keys
    ensures |order| == |keys|
  {
    forall k ensures k in order <==> k in keys {
      assert k in order <==> k in multiset(order);
    }
    assert |multiset(order)| == |multiset(keys)|;
  }

  /** No key is visited twice. */
  lemma {:induction false} EnumerationDistinct<K>(order: seq<K>, keys: set<K>, i: nat, j: nat)
    requires IsEnumeration(order, keys)
    requires i < j < |order|
    ensures order[i] != order[j]
  {
    var x := order[j];
    assert order == order[..j] + [x] + order[j+1..];
    assert multiset(order)[x] == multiset(order[..j])[x] + 1 + multiset(order[j+1..])[x];
    assert x in multiset(order);
    assert multiset(keys)[x] == 1;
    assert x !in order[..j];
    assert order[..j][i] == order[i];
  }

  /** Visiting one more, not yet visited key extends an enumeration of the visited keys. */
  lemma EnumerationSnoc<K>(order: seq<K>, done: set<K>, k: K)
    requires IsEnumeration(order, done)
    requires k !in done
    ensures IsEnumeration(order + [k], done + {k})
  {
    assert multiset(done + {k}) == multiset(done) + multiset{k};
    assert multiset(order + [k]) == multiset(order) + multiset{k};
  }

  /**
   * The state of a `range` loop over a map: `order` lists the keys visited so
   * far, each once, and `remaining` holds the keys still to visit.
   */
  predicate Visiting<K>(order: seq<K>, keys: set<K>, remaining: set<K>)
  {
    remaining <= keys && IsEnumeration(order, keys - remaining)
  }

  lemma RangeStart<K>(keys: set<K>)
    ensures Visiting([], keys, keys)
  {
    assert keys - keys == {};
  }

  /** One step of a range loop: the key picked from the unvisited ones extends the visited prefix. */
  lemma RangeStep<K>(order: seq<K>, keys: set<K>, remaining: set<K>, k: K)
    requires Visiting(order, keys, remaining) && k in remaining
    ensures Visiting(order + [k], keys, remaining - {k})
    ensures |remaining - {k}| == |remaining| - 1
  {
    EnumerationSnoc(order, keys - remaining, k);
    assert (keys - remaining) + {k} == keys - (remaining - {k});
  }

  lemma RangeDone<K>(order: seq<K>, keys: set<K>)
    requires Visiting(order, keys, {})
    ensures IsEnumeration(order, keys)
  {
    assert keys - {} == keys;
  }

  /** Every finite set can be iterated. */
  ghost function AnEnumeration<K>(s: set<K>): (r: seq<K>)
    ensures IsEnumeration(r, s)
    decreases |s|
  {
    if s == {} then []
    else
      var x :| x in s;
      var rest := AnEnumeration(s - {x});
      assert multiset(s) == multiset(s - {x}) + multiset{x} by {
        assert s == (s - {x}) + {x};
      }
      assert multiset([x] + rest) == multiset{x} + multiset(rest);
      [x] + rest
  }

  /** The two iteration orders of a two-key map. */
  lemma TwoKeyEnumeration<K>(order: seq<K>, a: K, b: K)
    requires a != b
    requires IsEnumeration(order, {a, b})
    ensures order == [a, b] || order == [b, a]
  {
    EnumerationMembers(order, {a, b});
    assert |order| == 2;
    assert order[0] in {a, b} && order[1] in {a, b};
    EnumerationDistinct(order, {a, b}, 0, 1);
  }

  /** Sum of `cost` over the keys of `order`, e.g. a loop `for k := range m { n += cost(k) }`. */
  function SumBy<K>(order: seq<K>, cost: K -> nat): nat
  {
    if order == [] then 0 else cost(order[0]) + SumBy(order[1..], cost)
  }

  lemma {:induction false} SumByConcat<K>(a: seq<K>, b: seq<K>, cost: K -> nat)
    ensures SumBy(a + b, cost) == SumBy(a, cost) + SumBy(b, cost)
  {
    if a == [] {
      assert a + b == b;
    } else {
      assert (a + b)[1..] == a[1..] + b;
      SumByConcat(a[1..], b, cost);
    }
  }

  lemma SumBySnoc<K>(order: seq<K>, k: K, cost: K -> nat)
    ensures SumBy(order + [k], cost) == SumBy(order, cost) + cost(k)
  {
    SumByConcat(order, [k], cost);
    assert SumBy([k], cost) == cost(k) by {
      assert [k][1..] == [];
    }
  }

  /** Takes the first element of `a` out of its permutation `b`. */
  lemma PermutationSplit<K>(a: seq<K>, b: seq<K>) returns (i: nat, rest: seq<K>)
    requires a != [] && multiset(a) == multiset(b)
    ensures i < |b| && b[i] == a[0]
    ensures b == b[..i] + [a[0]] + b[i+1..]
    ensures rest == b[..i] + b[i+1..]
    ensures multiset(a[1..]) == multiset(rest)
  {
    var x := a[0];
    assert x in multiset(b);
    i :| 0 <= i < |b| && b[i] == x;
    rest := b[..i] + b[i+1..];
    assert b == b[..i] + [x] + b[i+1..];
    assert a == [x] + a[1..];
    assert multiset(a) == multiset{x} + multiset(a[1..]);
    assert multiset(b) == multiset(b[..i]) + multiset{x} + multiset(b[i+1..]);
    assert multiset(rest) == multiset(b[..i]) + multiset(b[i+1..]);
    assert multiset(a[1..]) == multiset(a) - multiset{x};
    assert multiset(rest) == multiset(b) - multiset{x};
  }

  /** A sum over a map does not depend on its iteration order. */
  lemma {:induction false} SumByPermutation<K>(a: seq<K>, b: seq<K>, cost: K -> nat)
    requires multiset(a) == multiset(b)
    ensures SumBy(a, cost) == SumBy(b, cost)
    decreases |a|
  {
    if a == [] {
      assert |multiset(b)| == 0;
    } else {
      var x := a[0];
      var i, rest := PermutationSplit(a, b);
      SumByPermutation(a[1..], rest, cost);
      SumByConcat(b[..i] + [x], b[i+1..], cost);
      SumByConcat(b[..i], [x], cost);
      SumByConcat(b[..i], b[i+1..], cost);
      assert SumBy([x], cost) == cost(x) by {
        assert [x][1..] == [];
      }
    }
  }

  /** Enumerations of one key set give one sum. */
  lemma SumByEnumerations<K>(a: seq<K>, b: seq<K>, keys: set<K>, cost: K -> nat)
    requires IsEnumeration(a, keys) && IsEnumeration(b, keys)
    ensures SumBy(a, cost) == SumBy(b, cost)
  {
    SumByPermutation(a, b, cost);
  }
}

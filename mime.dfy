/**
 * A textproto.MIMEHeader (key -> list of values) and the `key: value` lines
 * written for it when its keys are visited in a given order, each value passed
 * through a rendering of the value text (verbatim for SendMessage, sanitised
 * for FormatHeaderString).
 */
module Mime {
  import opened GoMaps

  type Header = map<string, seq<string>>

  /** The value as stored. */
  function Verbatim(v: string): string { v }

  /** One `key: value` line per value, in stored order. */
  function ValueLines(key: string, values: seq<string>, render: string -> string): seq<string>
  {
    seq(|values|, j requires 0 <= j < |values| => key + ": " + render(values[j]))
  }

  lemma ValueLinesSnoc(key: string, values: seq<string>, i: nat, render: string -> string)
    requires i < |values|
    ensures ValueLines(key, values[..i + 1], render) == ValueLines(key, values[..i], render) + [key + ": " + render(values[i])]
  {
    var a := ValueLines(key, values[..i + 1], render);
    var b := ValueLines(key, values[..i], render) + [key + ": " + render(values[i])];
    assert |a| == |b|;
    forall n | 0 <= n < |a| ensures a[n] == b[n] {
      assert values[..i + 1][n] == values[n];
    }
  }

  /** The lines of every key of `order`, key after key. */
  function Lines(h: Header, order: seq<string>, render: string -> string): seq<string>
    requires forall k :: k in order ==> k in h
  {
    if order == [] then [] else ValueLines(order[0], h[order[0]], render) + Lines(h, order[1..], render)
  }

  /** The number of values stored under a key. */
  function ValueCount(h: Header): string -> nat
  {
    k => if k in h then |h[k]| else 0
  }

  /** The number of values in the whole header, whatever order its keys are visited in. */
  ghost function TotalValues(h: Header): nat
  {
    SumBy(AnEnumeration(h.Keys), ValueCount(h))
  }

  lemma {:induction false} LinesConcat(h: Header, a: seq<string>, b: seq<string>, render: string -> string)
    requires forall k :: k in a + b ==> k in h
    ensures Lines(h, a + b, render) == Lines(h, a, render) + Lines(h, b, render)
  {
    if a == [] {
      assert a + b == b;
    } else {
      assert (a + b)[1..] == a[1..] + b;
      LinesConcat(h, a[1..], b, render);
    }
  }

  /** Visiting one more key appends that key's lines. */
  lemma LinesSnoc(h: Header, order: seq<string>, k: string, render: string -> string)
    requires forall x :: x in order ==> x in h
    requires k in h
    ensures Lines(h, order + [k], render) == Lines(h, order, render) + ValueLines(k, h[k], render)
  {
    LinesConcat(h, order, [k], render);
    assert [k][1..] == [];
  }

  /** Every value gives exactly one line. */
  lemma {:induction false} LinesCount(h: Header, order: seq<string>, render: string -> string)
    requires forall k :: k in order ==> k in h
    ensures |Lines(h, order, render)| == SumBy(order, ValueCount(h))
  {
    if order != [] {
      LinesCount(h, order[1..], render);
    }
  }

  /** Over any iteration order there are TotalValues(h) lines. */
  lemma LinesCountAnyOrder(h: Header, order: seq<string>, render: string -> string)
    requires IsEnumeration(order, h.Keys)
    ensures |Lines(h, order, render)| == TotalValues(h)
  {
    EnumerationMembers(order, h.Keys);
    LinesCount(h, order, render);
    SumByEnumerations(order, AnEnumeration(h.Keys), h.Keys, ValueCount(h));
  }

  lemma {:induction false} SumBySingleValues(h: Header, order: seq<string>)
    requires forall k :: k in order ==> k in h && |h[k]| == 1
    ensures SumBy(order, ValueCount(h)) == |order|
  {
    if order != [] {
      SumBySingleValues(h, order[1..]);
    }
  }

  /** A map in which every key holds one value has as many values as keys. */
  lemma TotalValuesSingle(h: Header)
    requires forall k :: k in h ==> |h[k]| == 1
    ensures TotalValues(h) == |h|
  {
    var order := AnEnumeration(h.Keys);
    EnumerationMembers(order, h.Keys);
    SumBySingleValues(h, order);
  }

  /**
   * Value j of the i-th visited key is the line just after the lines of the
   * keys visited before it, and before the lines of its own later values.
   */
  lemma {:induction false} LineAt(h: Header, order: seq<string>, i: nat, j: nat, render: string -> string)
    requires forall k :: k in order ==> k in h
    requires i < |order| && j < |h[order[i]]|
    ensures SumBy(order[..i], ValueCount(h)) + j < |Lines(h, order, render)|
         && Lines(h, order, render)[SumBy(order[..i], ValueCount(h)) + j] == order[i] + ": " + render(h[order[i]][j])
  {
    var first := ValueLines(order[0], h[order[0]], render);
    assert Lines(h, order, render) == first + Lines(h, order[1..], render);
    if i == 0 {
      assert order[..0] == [];
    } else {
      LineAt(h, order[1..], i - 1, j, render);
      assert order[1..][..i - 1] == order[..i][1..];
      assert order[1..][i - 1] == order[i];
      assert order[..i][0] == order[0];
      assert ValueCount(h)(order[0]) == |first|;
      assert SumBy(order[..i], ValueCount(h)) == |first| + SumBy(order[1..][..i - 1], ValueCount(h));
    }
  }

  /** LineAt behind any prefix of other lines. */
  lemma LineAtAfter(prefix: seq<string>, h: Header, order: seq<string>, i: nat, j: nat, render: string -> string)
    requires forall k :: k in order ==> k in h
    requires i < |order| && j < |h[order[i]]|
    ensures |prefix| + SumBy(order[..i], ValueCount(h)) + j < |prefix + Lines(h, order, render)|
    ensures (prefix + Lines(h, order, render))[|prefix| + SumBy(order[..i], ValueCount(h)) + j] == order[i] + ": " + render(h[order[i]][j])
  {
    LineAt(h, order, i, j, render);
  }

  /** The lines of an earlier visited key all come before the lines of a later one. */
  lemma KeyLinesPrecede(h: Header, order: seq<string>, i: nat, j: nat, i2: nat, j2: nat)
    requires forall k :: k in order ==> k in h
    requires i < i2 < |order|
    requires j < |h[order[i]]| && j2 < |h[order[i2]]|
    ensures SumBy(order[..i], ValueCount(h)) + j < SumBy(order[..i2], ValueCount(h)) + j2
  {
    assert order[..i2] == order[..i] + [order[i]] + order[i + 1..i2];
    SumByConcat(order[..i] + [order[i]], order[i + 1..i2], ValueCount(h));
    SumByConcat(order[..i], [order[i]], ValueCount(h));
    assert SumBy([order[i]], ValueCount(h)) == |h[order[i]]| by {
      assert [order[i]][1..] == [];
    }
  }

  /** Every line is `key: value` for a key of the order and one of its values. */
  lemma {:induction false} LineOrigin(h: Header, order: seq<string>, n: nat, render: string -> string) returns (i: nat, j: nat)
    requires forall k :: k in order ==> k in h
    requires n < |Lines(h, order, render)|
    ensures i < |order| && j < |h[order[i]]|
    ensures n == SumBy(order[..i], ValueCount(h)) + j
    ensures Lines(h, order, render)[n] == order[i] + ": " + render(h[order[i]][j])
  {
    var k := order[0];
    var first := ValueLines(k, h[k], render);
    if n < |first| {
      i, j := 0, n;
      assert order[..0] == [];
    } else {
      var i', j' := LineOrigin(h, order[1..], n - |first|, render);
      i, j := i' + 1, j';
      assert order[1..][..i'] == order[..i][1..];
      assert order[1..][i'] == order[i];
    }
  }

  /** The lines as a multiset do not depend on the iteration order. */
  lemma {:induction false} LinesPermutation(h: Header, a: seq<string>, b: seq<string>, render: string -> string)
    requires forall k :: k in a ==> k in h
    requires multiset(a) == multiset(b)
    ensures forall k :: k in b ==> k in h
    ensures multiset(Lines(h, a, render)) == multiset(Lines(h, b, render))
    decreases |a|
  {
    assert forall k :: k in b ==> k in h by {
      forall k | k in b ensures k in h {
        assert k in multiset(b);
      }
    }
    if a == [] {
      assert |multiset(b)| == 0;
      assert b == [];
    } else {
      var x := a[0];
      var i, rest := PermutationSplit(a, b);
      LinesPermutation(h, a[1..], rest, render);
      var xs := ValueLines(x, h[x], render);
      var pre := Lines(h, b[..i], render);
      var post := Lines(h, b[i+1..], render);
      assert Lines(h, a, render) == xs + Lines(h, a[1..], render);
      assert Lines(h, [x], render) == xs by {
        assert [x][1..] == [];
      }
      LinesConcat(h, b[..i] + [x], b[i+1..], render);
      LinesConcat(h, b[..i], [x], render);
      assert Lines(h, b, render) == pre + xs + post;
      LinesConcat(h, b[..i], b[i+1..], render);
      assert Lines(h, rest, render) == pre + post;
      assert multiset(Lines(h, b, render)) == multiset(xs) + multiset(pre + post);
    }
  }
}

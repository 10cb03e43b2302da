/**
 * command/command.go: FormatHeaderString writes a header map with its keys in
 * ascending byte order, each value with CRLF collapsed to LF and surrounding
 * white space trimmed, every line ended by CRLF, and the final CRLF cut off.
 * estimateSize gives the capacity hint for the builder.
 */
module HeaderFormat {
  import opened GoMaps
  import opened Text
  import opened Mime

  /** A header value as FormatHeaderString writes it. */
  function Sanitise(v: string): string
  {
    TrimString(ReplaceCRLF(v))
  }

  /** The sanitised value is no longer than the stored one and has no white space at either end. */
  lemma SanitiseClean(v: string)
    ensures |Sanitise(v)| <= |v|
    ensures Sanitise(v) == "" || (!IsASCIISpace(Sanitise(v)[0]) && !IsASCIISpace(Sanitise(v)[|Sanitise(v)| - 1]))
  {
    var p, q := TrimStringSpec(ReplaceCRLF(v));
  }

  /** Every line followed by CRLF, as the strings.Builder holds them. */
  function Terminated(lines: seq<string>): string
  {
    if lines == [] then "" else lines[0] + CRLF + Terminated(lines[1..])
  }

  lemma {:induction false} TerminatedConcat(a: seq<string>, b: seq<string>)
    ensures Terminated(a + b) == Terminated(a) + Terminated(b)
  {
    if a == [] {
      assert a + b == b;
    } else {
      assert (a + b)[1..] == a[1..] + b;
      TerminatedConcat(a[1..], b);
    }
  }

  /** Cutting the final CRLF off the terminated lines gives the lines joined by CRLF. */
  lemma {:induction false} TerminatedIsJoin(lines: seq<string>)
    requires |lines| > 0
    ensures Terminated(lines) == Join(lines, CRLF) + CRLF
  {
    if |lines| > 1 {
      TerminatedIsJoin(lines[1..]);
    } else {
      assert lines[1..] == [];
    }
  }

  // ---------------------------------------------------------------------------
  // sort.Strings

  /** Ascending in Go's string order (equal neighbours allowed). */
  predicate Sorted(s: seq<string>)
  {
    forall p, q :: 0 <= p < q < |s| ==> !Below(s[q], s[p])
  }

  /** Strictly ascending in Go's string order. */
  predicate StrictlySorted(s: seq<string>)
  {
    forall p, q :: 0 <= p < q < |s| ==> Below(s[p], s[q])
  }

  lemma NotBelowTransitive(a: string, b: string, c: string)
    requires !Below(b, a) && !Below(c, b)
    ensures !Below(c, a)
  {
    if a != b && b != c {
      BelowTotal(a, b);
      BelowTotal(b, c);
      BelowTransitive(a, b, c);
      BelowAsymmetric(a, c);
    }
  }

  /** Exchanging two elements keeps the multiset of the slice. */
  lemma SwapPermutes(s: seq<string>, j: nat)
    requires 0 < j < |s|
    ensures multiset(s[j - 1 := s[j]][j := s[j - 1]]) == multiset(s)
  {
    var t := s[j - 1 := s[j]];
    assert multiset(t) == multiset(s) - multiset{s[j - 1]} + multiset{s[j]};
    assert multiset(t[j := s[j - 1]]) == multiset(t) - multiset{s[j]} + multiset{s[j - 1]};
  }

  /** One insertion step: moves a[i] left past every larger element before it. */
  method InsertAt(a: array<string>, i: nat)
    requires i < a.Length
    requires Sorted(a[..i])
    modifies a
    ensures Sorted(a[..i + 1])
    ensures multiset(a[..i + 1]) == old(multiset(a[..i + 1]))
    ensures a[i + 1..] == old(a[i + 1..])
    ensures multiset(a[..]) == old(multiset(a[..]))
  {
    ghost var a0 := a[..];
    var j := i;
    while j > 0 && Below(a[j], a[j - 1])
      invariant 0 <= j <= i
      invariant InsertStep(a[..], a0, i, j)
    {
      ghost var s := a[..];
      SwapStep(s, a0, i, j);
      a[j - 1], a[j] := a[j], a[j - 1];
      assert a[..] == s[j - 1 := s[j]][j := s[j - 1]];
      j := j - 1;
    }
    InsertionDone(a[..], i, j);
    PrefixMultiset(a[..], a0, i + 1);
  }

  /** The insertion loop's invariant: same elements as `a0`, the same part after i, and Inserting. */
  predicate InsertStep(s: seq<string>, a0: seq<string>, i: nat, j: nat)
  {
    && |s| == |a0| && i < |s|
    && multiset(s) == multiset(a0)
    && s[i + 1..] == a0[i + 1..]
    && Inserting(s, i, j)
  }

  /** Two sequences with the same elements and the same tail from n have the same elements before n. */
  lemma PrefixMultiset(x: seq<string>, y: seq<string>, n: nat)
    requires n <= |x| == |y|
    requires multiset(x) == multiset(y) && x[n..] == y[n..]
    ensures multiset(x[..n]) == multiset(y[..n])
  {
    assert x == x[..n] + x[n..] && y == y[..n] + y[n..];
    assert multiset(x[..n]) == multiset(x) - multiset(x[n..]);
    assert multiset(y[..n]) == multiset(y) - multiset(y[n..]);
  }

  /** One swap of the insertion loop keeps its invariant one place further left. */
  lemma SwapStep(s: seq<string>, a0: seq<string>, i: nat, j: nat)
    requires InsertStep(s, a0, i, j) && j > 0 && Below(s[j], s[j - 1])
    ensures InsertStep(s[j - 1 := s[j]][j := s[j - 1]], a0, i, j - 1)
  {
    var t := s[j - 1 := s[j]][j := s[j - 1]];
    SwapPermutes(s, j);
    SwapKeepsInserting(s, i, j);
    assert t[i + 1..] == s[i + 1..];
  }

  /**
   * While a[i] moves left and sits at j: the prefix up to i without position
   * j is sorted, and everything after j up to i is above the moved element.
   */
  predicate Inserting(s: seq<string>, i: nat, j: nat)
  {
    && j <= i < |s|
    && (forall p, q :: 0 <= p < q <= i && p != j && q != j ==> !Below(s[q], s[p]))
    && (forall q :: j < q <= i ==> Below(s[j], s[q]))
  }

  /** Swapping the moved element with a larger left neighbour keeps the invariant one place further left. */
  lemma SwapKeepsInserting(s: seq<string>, i: nat, j: nat)
    requires Inserting(s, i, j) && j > 0 && Below(s[j], s[j - 1])
    ensures Inserting(s[j - 1 := s[j]][j := s[j - 1]], i, j - 1)
  {
    var t := s[j - 1 := s[j]][j := s[j - 1]];
    forall p, q | 0 <= p < q <= i && p != j - 1 && q != j - 1
      ensures !Below(t[q], t[p])
    {
      var p' := if p == j then j - 1 else p;
      var q' := if q == j then j - 1 else q;
      assert t[p] == s[p'] && t[q] == s[q'];
    }
  }

  /** When the moved element has stopped at j, the prefix up to i is sorted. */
  lemma InsertionDone(s: seq<string>, i: nat, j: nat)
    requires Inserting(s, i, j)
    requires j > 0 ==> !Below(s[j], s[j - 1])
    ensures Sorted(s[..i + 1])
  {
    forall p, q | 0 <= p < q <= i
      ensures !Below(s[q], s[p])
    {
      if q == j && p < j - 1 {
        NotBelowTransitive(s[p], s[j - 1], s[j]);
      } else if p == j {
        BelowAsymmetric(s[j], s[q]);
      }
    }
  }

  /** sort.Strings: sorts the slice in place. */
  method SortStrings(a: array<string>)
    modifies a
    ensures Sorted(a[..])
    ensures multiset(a[..]) == old(multiset(a[..]))
  {
    var i := 0;
    while i < a.Length
      invariant 0 <= i <= a.Length
      invariant Sorted(a[..i])
      invariant multiset(a[..]) == old(multiset(a[..]))
    {
      InsertAt(a, i);
      i := i + 1;
    }
    assert a[..i] == a[..];
  }

  /** The smallest element of a strictly sorted sequence comes first. */
  lemma StrictlySortedHead(s: seq<string>, x: string)
    requires StrictlySorted(s) && x in s
    ensures x == s[0] || Below(s[0], x)
  {
  }

  /** A key set has exactly one strictly ascending enumeration: sorted output does not depend on map order. */
  lemma {:induction false} SortedEnumerationUnique(a: seq<string>, b: seq<string>)
    requires StrictlySorted(a) && StrictlySorted(b)
    requires multiset(a) == multiset(b)
    ensures a == b
    decreases |a|
  {
    if a == [] {
      assert |multiset(b)| == 0;
    } else {
      SortedHeadsEqual(a, b);
      SameHeadTails(a, b);
      SortedEnumerationUnique(a[1..], b[1..]);
      assert a == [a[0]] + a[1..] && b == [b[0]] + b[1..];
    }
  }

  /** Two strictly sorted sequences with the same elements start with the same element. */
  lemma SortedHeadsEqual(a: seq<string>, b: seq<string>)
    requires StrictlySorted(a) && StrictlySorted(b)
    requires multiset(a) == multiset(b) && a != []
    ensures b != [] && a[0] == b[0]
  {
    assert |b| == |multiset(b)| == |multiset(a)| == |a|;
    assert b[0] in multiset(a) && a[0] in multiset(b);
    StrictlySortedHead(a, b[0]);
    StrictlySortedHead(b, a[0]);
    BelowIrreflexive(a[0]);
    if Below(a[0], b[0]) {
      BelowAsymmetric(a[0], b[0]);
    }
  }

  /** Removing an equal first element keeps the elements equal and the tails sorted. */
  lemma SameHeadTails(a: seq<string>, b: seq<string>)
    requires StrictlySorted(a) && StrictlySorted(b)
    requires multiset(a) == multiset(b) && a != [] && b != [] && a[0] == b[0]
    ensures StrictlySorted(a[1..]) && StrictlySorted(b[1..])
    ensures multiset(a[1..]) == multiset(b[1..])
  {
    assert a == [a[0]] + a[1..] && b == [b[0]] + b[1..];
    assert multiset(a[1..]) == multiset(a) - multiset{a[0]};
    assert multiset(b[1..]) == multiset(b) - multiset{b[0]};
  }

  /** A sorted enumeration of a key set is strictly sorted, since keys are distinct. */
  lemma SortedEnumerationStrict(s: seq<string>, keys: set<string>)
    requires Sorted(s) && IsEnumeration(s, keys)
    ensures StrictlySorted(s)
  {
    forall p, q | 0 <= p < q < |s| ensures Below(s[p], s[q]) {
      EnumerationDistinct(s, keys, p, q);
      BelowTotal(s[p], s[q]);
    }
  }

  // ---------------------------------------------------------------------------
  // estimateSize

  /** len(key) + len(value) + 4 for every value of one key. */
  function ValuesEstimate(key: string, values: seq<string>): nat
  {
    if values == [] then 0
    else ValuesEstimate(key, values[..|values| - 1]) + |key| + |values[|values| - 1]| + 4
  }

  function KeyEstimate(h: Header): string -> nat
  {
    k => if k in h then ValuesEstimate(k, h[k]) else 0
  }

  /** The sum over all values of len(key) + len(value) + 4, whatever the iteration order. */
  ghost function EstimatedSize(h: Header): nat
  {
    SumBy(AnEnumeration(h.Keys), KeyEstimate(h))
  }

  /** The inner loop of estimateSize: the cost of one key's values. */
  method EstimateValues(key: string, values: seq<string>) returns (n: int)
    ensures n == ValuesEstimate(key, values)
  {
    n := 0;
    var i := 0;
    while i < |values|
      invariant 0 <= i <= |values|
      invariant n == ValuesEstimate(key, values[..i])
    {
      assert values[..i + 1][..i] == values[..i];
      n := n + |key| + |values[i]| + 4;
      i := i + 1;
    }
    assert values[..i] == values;
  }

  method EstimateSize(headers: Header) returns (size: int)
    ensures size == EstimatedSize(headers)
  {
    size := 0;
    var remaining := headers.Keys;
    ghost var order: seq<string> := [];
    RangeStart(headers.Keys);
    while remaining != {}
      invariant Visiting(order, headers.Keys, remaining)
      invariant size == SumBy(order, KeyEstimate(headers))
      decreases |remaining|
    {
      var key :| key in remaining;
      var n := EstimateValues(key, headers[key]);
      assert KeyEstimate(headers)(key) == n;
      size := size + n;
      SumBySnoc(order, key, KeyEstimate(headers));
      RangeStep(order, headers.Keys, remaining, key);
      order := order + [key];
      remaining := remaining - {key};
    }
    RangeDone(order, headers.Keys);
    SumByEnumerations(order, AnEnumeration(headers.Keys), headers.Keys, KeyEstimate(headers));
  }

  // ---------------------------------------------------------------------------
  // FormatHeaderString

  /** `keys := make([]string, len(headers))` filled by ranging over the map. */
  method CollectKeys(headers: Header) returns (a: array<string>)
    ensures fresh(a)
    ensures IsEnumeration(a[..], headers.Keys)
  {
    a := new string[|headers|];
    var i := 0;
    var remaining := headers.Keys;
    ghost var order: seq<string> := [];
    RangeStart(headers.Keys);
    while remaining != {}
      invariant Visiting(order, headers.Keys, remaining)
      invariant i == |order| && i + |remaining| == a.Length
      invariant forall p :: 0 <= p < i ==> a[p] == order[p]
      modifies a
      decreases |remaining|
    {
      var key :| key in remaining;
      RangeStep(order, headers.Keys, remaining, key);
      a[i] := key;
      order := order + [key];
      i := i + 1;
      remaining := remaining - {key};
    }
    RangeDone(order, headers.Keys);
    assert a[..] == order;
  }

  /** The inner write loop: one terminated line per value of `key`. */
  method WriteValues(key: string, values: seq<string>) returns (ws: string)
    ensures ws == Terminated(ValueLines(key, values, Sanitise))
  {
    ws := "";
    var j := 0;
    while j < |values|
      invariant 0 <= j <= |values|
      invariant ws == Terminated(ValueLines(key, values[..j], Sanitise))
    {
      var value := ReplaceCRLF(values[j]);
      value := TrimString(value);
      TerminatedValueSnoc(key, values, j);
      ws := ws + key + ": " + value + CRLF;
      j := j + 1;
    }
    assert values[..j] == values;
  }

  /** One more value appends its sanitised, CRLF-terminated line. */
  lemma TerminatedValueSnoc(key: string, values: seq<string>, j: nat)
    requires j < |values|
    ensures Terminated(ValueLines(key, values[..j + 1], Sanitise))
         == Terminated(ValueLines(key, values[..j], Sanitise)) + key + ": " + Sanitise(values[j]) + CRLF
  {
    var line := key + ": " + Sanitise(values[j]);
    ValueLinesSnoc(key, values, j, Sanitise);
    TerminatedConcat(ValueLines(key, values[..j], Sanitise), [line]);
    assert [line][1..] == [];
  }

  /** The outer write loop: the lines of every key, in the order of `keys`. */
  method WriteLines(headers: Header, keys: array<string>) returns (ws: string)
    requires forall k :: k in keys[..] ==> k in headers
    ensures ws == Terminated(Lines(headers, keys[..], Sanitise))
  {
    ws := "";
    var n := 0;
    while n < keys.Length
      invariant 0 <= n <= keys.Length
      invariant ws == Terminated(Lines(headers, keys[..n], Sanitise))
    {
      var key := keys[n];
      var out := WriteValues(key, headers[key]);
      assert keys[..n + 1] == keys[..n] + [key];
      LinesSnoc(headers, keys[..n], key, Sanitise);
      TerminatedConcat(Lines(headers, keys[..n], Sanitise), ValueLines(key, headers[key], Sanitise));
      ws := ws + out;
      n := n + 1;
    }
    assert keys[..n] == keys[..];
  }

  /** Some key holds a value, so at least one line is written. */
  lemma LinesNotEmpty(h: Header, order: seq<string>, k: string, render: string -> string)
    requires forall x :: x in order ==> x in h
    requires k in order && |h[k]| > 0
    ensures |Lines(h, order, render)| > 0
  {
    var i :| 0 <= i < |order| && order[i] == k;
    LineAt(h, order, i, 0, render);
  }

  /**
   * FormatHeaderString. `keys` is the slice after sort.Strings. The map must
   * hold at least one value: with none the builder is empty and cutting two
   * bytes off it panics.
   */
  method FormatHeaderString(headers: Header) returns (str: string, ghost keys: seq<string>)
    requires exists k :: k in headers && |headers[k]| > 0
    ensures StrictlySorted(keys) && IsEnumeration(keys, headers.Keys)
    ensures str == Join(Lines(headers, keys, Sanitise), CRLF)
  {
    var size := EstimateSize(headers);
    var a := CollectKeys(headers);
    ghost var collected := a[..];
    SortStrings(a);
    keys := a[..];
    assert IsEnumeration(keys, headers.Keys) by {
      forall k | k in keys ensures k in headers.Keys {
        assert k in multiset(keys);
        assert k in multiset(collected);
      }
    }
    SortedEnumerationStrict(keys, headers.Keys);
    var ws := WriteLines(headers, a);
    var k :| k in headers && |headers[k]| > 0;
    EnumerationMembers(keys, headers.Keys);
    LinesNotEmpty(headers, keys, k, Sanitise);
    TerminatedIsJoin(Lines(headers, keys, Sanitise));
    str := ws[..|ws| - 2];
  }

  // ---------------------------------------------------------------------------
  // Properties of the formatted text

  /** Only one key order is ever written: maps with equal contents format identically. */
  lemma FormatDeterministic(headers: Header, k1: seq<string>, k2: seq<string>)
    requires StrictlySorted(k1) && IsEnumeration(k1, headers.Keys)
    requires StrictlySorted(k2) && IsEnumeration(k2, headers.Keys)
    ensures k1 == k2
    ensures Join(Lines(headers, k1, Sanitise), CRLF) == Join(Lines(headers, k2, Sanitise), CRLF)
  {
    SortedEnumerationUnique(k1, k2);
  }

  /** Every stored value appears, sanitised, on a line of its own key. */
  lemma FormatCarriesEveryValue(headers: Header, keys: seq<string>, k: string, j: nat)
    requires IsEnumeration(keys, headers.Keys)
    requires k in headers && j < |headers[k]|
    ensures k + ": " + Sanitise(headers[k][j]) in Lines(headers, keys, Sanitise)
  {
    EnumerationMembers(keys, headers.Keys);
    var i :| 0 <= i < |keys| && keys[i] == k;
    LineAt(headers, keys, i, j, Sanitise);
  }

  /** In a strictly sorted sequence the lower element comes first. */
  lemma SortedIndexOrder(keys: seq<string>, i1: nat, i2: nat)
    requires StrictlySorted(keys) && i1 < |keys| && i2 < |keys|
    requires Below(keys[i1], keys[i2])
    ensures i1 < i2
  {
    BelowAsymmetric(keys[i1], keys[i2]);
    BelowIrreflexive(keys[i1]);
  }

  /** The lines of a key that sorts lower come before every line of a key that sorts higher. */
  lemma FormatKeysAscending(headers: Header, keys: seq<string>, k1: string, j1: nat, k2: string, j2: nat)
    returns (n1: nat, n2: nat)
    requires StrictlySorted(keys) && IsEnumeration(keys, headers.Keys)
    requires k1 in headers && j1 < |headers[k1]|
    requires k2 in headers && j2 < |headers[k2]|
    requires Below(k1, k2)
    ensures n1 < n2 < |Lines(headers, keys, Sanitise)|
    ensures Lines(headers, keys, Sanitise)[n1] == k1 + ": " + Sanitise(headers[k1][j1])
    ensures Lines(headers, keys, Sanitise)[n2] == k2 + ": " + Sanitise(headers[k2][j2])
  {
    EnumerationMembers(keys, headers.Keys);
    var i1 :| 0 <= i1 < |keys| && keys[i1] == k1;
    var i2 :| 0 <= i2 < |keys| && keys[i2] == k2;
    SortedIndexOrder(keys, i1, i2);
    n1, n2 := IndexedLinesAscending(headers, keys, i1, j1, i2, j2);
  }

  /** The lines of key i1 come before those of a later key i2. */
  lemma IndexedLinesAscending(headers: Header, keys: seq<string>, i1: nat, j1: nat, i2: nat, j2: nat)
    returns (n1: nat, n2: nat)
    requires forall k :: k in keys ==> k in headers
    requires i1 < i2 < |keys| && j1 < |headers[keys[i1]]| && j2 < |headers[keys[i2]]|
    ensures n1 < n2 < |Lines(headers, keys, Sanitise)|
    ensures Lines(headers, keys, Sanitise)[n1] == keys[i1] + ": " + Sanitise(headers[keys[i1]][j1])
    ensures Lines(headers, keys, Sanitise)[n2] == keys[i2] + ": " + Sanitise(headers[keys[i2]][j2])
  {
    LineAt(headers, keys, i1, j1, Sanitise);
    LineAt(headers, keys, i2, j2, Sanitise);
    KeyLinesPrecede(headers, keys, i1, j1, i2, j2);
    n1 := SumBy(keys[..i1], ValueCount(headers)) + j1;
    n2 := SumBy(keys[..i2], ValueCount(headers)) + j2;
  }

  lemma {:induction false} ValueLinesWithinEstimate(key: string, values: seq<string>)
    ensures |Terminated(ValueLines(key, values, Sanitise))| <= ValuesEstimate(key, values)
    decreases |values|
  {
    if values != [] {
      var n := |values| - 1;
      ValueLinesWithinEstimate(key, values[..n]);
      ValueLinesSnoc(key, values, n, Sanitise);
      assert values[..n + 1] == values;
      var last := key + ": " + Sanitise(values[n]);
      TerminatedConcat(ValueLines(key, values[..n], Sanitise), [last]);
      assert [last][1..] == [];
      SanitiseClean(values[n]);
    }
  }

  lemma {:induction false} LinesWithinEstimate(h: Header, order: seq<string>)
    requires forall k :: k in order ==> k in h
    ensures |Terminated(Lines(h, order, Sanitise))| <= SumBy(order, KeyEstimate(h))
  {
    if order != [] {
      LinesWithinEstimate(h, order[1..]);
      ValueLinesWithinEstimate(order[0], h[order[0]]);
      TerminatedConcat(ValueLines(order[0], h[order[0]], Sanitise), Lines(h, order[1..], Sanitise));
    }
  }

  /** estimateSize is enough for the builder: the text plus its cut-off CRLF fits. */
  lemma FormatWithinEstimate(headers: Header, keys: seq<string>)
    requires IsEnumeration(keys, headers.Keys)
    requires exists k :: k in headers && |headers[k]| > 0
    ensures |Join(Lines(headers, keys, Sanitise), CRLF)| + 2 <= EstimatedSize(headers)
  {
    EnumerationMembers(keys, headers.Keys);
    var k :| k in headers && |headers[k]| > 0;
    LinesNotEmpty(headers, keys, k, Sanitise);
    TerminatedIsJoin(Lines(headers, keys, Sanitise));
    LinesWithinEstimate(headers, keys);
    SumByEnumerations(keys, AnEnumeration(headers.Keys), headers.Keys, KeyEstimate(headers));
  }

  /** The text never ends in CR or LF: the trailing CRLF is removed and values are trimmed. */
  lemma FormatNoTrailingNewline(headers: Header, keys: seq<string>)
    requires IsEnumeration(keys, headers.Keys)
    requires exists k :: k in headers && |headers[k]| > 0
    ensures var str := Join(Lines(headers, keys, Sanitise), CRLF);
      |str| > 0 && str[|str| - 1] != '\r' && str[|str| - 1] != '\n'
  {
    EnumerationMembers(keys, headers.Keys);
    var lines := Lines(headers, keys, Sanitise);
    var k :| k in headers && |headers[k]| > 0;
    LinesNotEmpty(headers, keys, k, Sanitise);
    var n := |lines| - 1;
    var i, j := LineOrigin(headers, keys, n, Sanitise);
    var v := Sanitise(headers[keys[i]][j]);
    SanitiseClean(headers[keys[i]][j]);
    assert lines == lines[..n] + [lines[n]];
    JoinSnoc(lines[..n], lines[n], CRLF);
    var str := Join(lines, CRLF);
    assert str[|str| - 1] == lines[n][|lines[n]| - 1];
    assert lines[n] == keys[i] + ": " + v;
  }
}

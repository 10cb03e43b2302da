/**
 * utils.go: BuildVars renders a channel-variable map as comma-separated
 * `key=value` entries, single-quoting values that contain a space, and
 * substitutes the text for the `%s` of a format such as `{%s}`.
 *
 * The partner of the encoder is a decoder: splitting at commas and at the
 * first `=` of each entry, and removing the quotes, gives the map back when
 * no key holds `=` and neither keys nor values hold a comma.
 */
module Vars {
  import opened GoMaps
  import opened Text

  type VarMap = map<string, string>

  /** `strings.ContainsAny(value, " ")`. */
  predicate HasSpace(value: string)
  {
    ' ' in value
  }

  /** One entry: `key=value`, or `key='value'` when the value contains a space. */
  function RenderVar(key: string, value: string): string
  {
    key + "=" + (if HasSpace(value) then "'" + value + "'" else value)
  }

  /** The entries in the order the keys were visited. */
  function Entries(vars: VarMap, order: seq<string>): seq<string>
    requires forall k :: k in order ==> k in vars
  {
    seq(|order|, i requires 0 <= i < |order| => RenderVar(order[i], vars[order[i]]))
  }

  /** The text BuildVars hands to Sprintf. */
  function VarsText(vars: VarMap, order: seq<string>): string
    requires forall k :: k in order ==> k in vars
  {
    Join(Entries(vars, order), ",")
  }

  lemma EntriesSnoc(vars: VarMap, order: seq<string>, k: string)
    requires forall x :: x in order ==> x in vars
    requires k in vars
    ensures Entries(vars, order + [k]) == Entries(vars, order) + [RenderVar(k, vars[k])]
  {
    var a := Entries(vars, order + [k]);
    var b := Entries(vars, order) + [RenderVar(k, vars[k])];
    assert |a| == |b|;
    forall i | 0 <= i < |a| ensures a[i] == b[i] {
      assert (order + [k])[i] == if i < |order| then order[i] else k;
    }
  }

  /** One loop step: a comma unless the builder is empty, then the entry. */
  method WriteVar(builder: string, key: string, value: string) returns (b: string)
    ensures b == (if |builder| > 0 then builder + "," else builder) + RenderVar(key, value)
  {
    b := builder;
    if |b| > 0 {
      b := b + ",";
    }
    b := b + key + "=";
    if HasSpace(value) {
      b := b + "'" + value + "'";
    } else {
      b := b + value;
    }
  }

  /**
   * BuildVars. A nil or empty map gives "" and the format is not used;
   * otherwise every entry is written once, in map iteration order `order`,
   * with a comma before every entry but the first.
   */
  method BuildVars(format: string, vars: Option<VarMap>) returns (r: string, ghost order: seq<string>)
    requires vars.Some? && |vars.value| > 0 ==> OneStringVerb(format)
    ensures vars.None? || |vars.value| == 0 ==> r == "" && order == []
    ensures vars.Some? ==> IsEnumeration(order, vars.value.Keys)
    ensures vars.Some? && |vars.value| > 0 ==> r == Sprintf(format, VarsText(vars.value, order))
  {
    order := [];
    if vars.None? || |vars.value| == 0 {
      if vars.Some? {
        assert vars.value.Keys == {};
      }
      return "", order;
    }
    var m := vars.value;
    var builder := "";
    var remaining := m.Keys;
    RangeStart(m.Keys);
    while remaining != {}
      invariant Visiting(order, m.Keys, remaining)
      invariant builder == VarsText(m, order)
      invariant |builder| > 0 <==> |order| > 0
      decreases |remaining|
    {
      var key :| key in remaining;
      EntriesSnoc(m, order, key);
      JoinSnoc(Entries(m, order), RenderVar(key, m[key]), ",");
      builder := WriteVar(builder, key, m[key]);
      RangeStep(order, m.Keys, remaining, key);
      order := order + [key];
      remaining := remaining - {key};
    }
    RangeDone(order, m.Keys);
    EnumerationMembers(order, m.Keys);
    r := Sprintf(format, builder);
  }

  // ---------------------------------------------------------------------------
  // Decoding

  /** strings.Split(s, string(c)). */
  function SplitAt(s: string, c: char): (r: seq<string>)
    ensures |r| > 0
  {
    if |s| == 0 then [""]
    else
      var rest := SplitAt(s[1..], c);
      if s[0] == c then [""] + rest else [[s[0]] + rest[0]] + rest[1..]
  }

  /** A character other than the separator joins the first piece. */
  lemma SplitAtCons(ch: char, s: string, c: char)
    requires ch != c
    ensures SplitAt([ch] + s, c) == [[ch] + SplitAt(s, c)[0]] + SplitAt(s, c)[1..]
  {
    assert ([ch] + s)[1..] == s;
  }

  /** Text without the separator stays in the first piece. */
  lemma {:induction false} SplitAtPrefix(x: string, tail: string, c: char)
    requires c !in x
    ensures SplitAt(x + tail, c) == [x + SplitAt(tail, c)[0]] + SplitAt(tail, c)[1..]
  {
    var t := SplitAt(tail, c);
    if x == [] {
      assert x + tail == tail && x + t[0] == t[0];
      assert t == [t[0]] + t[1..];
    } else {
      var y := x[1..];
      SplitAtPrefix(y, tail, c);
      assert x + tail == [x[0]] + (y + tail);
      SplitAtCons(x[0], y + tail, c);
      assert [x[0]] + (y + t[0]) == x + t[0];
    }
  }

  /** Splitting the joined pieces gives them back when none holds the separator. */
  lemma {:induction false} SplitAtJoin(parts: seq<string>, c: char)
    requires |parts| > 0
    requires forall i :: 0 <= i < |parts| ==> c !in parts[i]
    ensures SplitAt(Join(parts, [c]), c) == parts
  {
    if |parts| == 1 {
      SplitAtPrefix(parts[0], "", c);
      assert parts[0] + "" == parts[0];
      assert SplitAt("", c) == [""];
      assert parts == [parts[0]];
    } else {
      var rest := parts[1..];
      SplitAtJoin(rest, c);
      JoinCons(parts[0], rest, [c]);
      assert Join(parts, [c]) == parts[0] + ([c] + Join(rest, [c]));
      SplitAtPrefix(parts[0], [c] + Join(rest, [c]), c);
      assert ([c] + Join(rest, [c]))[1..] == Join(rest, [c]);
      assert SplitAt([c] + Join(rest, [c]), c) == [""] + rest;
      assert parts[0] + "" == parts[0];
      assert parts == [parts[0]] + rest;
    }
  }

  /** The position of the first `=`, if any. */
  function FirstEquals(s: string): (r: Option<nat>)
    ensures r.Some? ==> r.value < |s| && s[r.value] == '=' && '=' !in s[..r.value]
    ensures r.None? ==> '=' !in s
  {
    if |s| == 0 then None
    else if s[0] == '=' then Some(0)
    else
      match FirstEquals(s[1..])
      case None => None
      case Some(i) =>
        assert s[..i + 1] == [s[0]] + s[1..][..i];
        Some(i + 1)
  }

  /** The value with the quotes BuildVars adds removed. */
  function Unquote(v: string): string
  {
    if |v| >= 2 && v[0] == '\'' && v[|v| - 1] == '\'' && HasSpace(v[1..|v| - 1]) then v[1..|v| - 1] else v
  }

  /** Key and value of one entry: split at the first `=`, then unquoted. */
  function ParseVar(entry: string): Option<(string, string)>
  {
    match FirstEquals(entry)
    case None => None
    case Some(i) => Some((entry[..i], Unquote(entry[i + 1..])))
  }

  /** An entry gives back its key and value whenever the key holds no `=`. */
  lemma ParseRenderVar(key: string, value: string)
    requires '=' !in key
    ensures ParseVar(RenderVar(key, value)) == Some((key, value))
  {
    var shown := if HasSpace(value) then "'" + value + "'" else value;
    FirstEqualsAfterKey(key, shown);
    var e := RenderVar(key, value);
    assert e[|key| + 1..] == shown;
    if HasSpace(value) {
      assert shown[1..|shown| - 1] == value;
    } else {
      if |value| >= 2 {
        assert forall ch :: ch in value[1..|value| - 1] ==> ch in value;
        assert !HasSpace(value[1..|value| - 1]);
      }
      assert Unquote(shown) == value;
    }
    assert e[..|key|] == key;
  }

  lemma {:induction false} FirstEqualsAfterKey(key: string, rest: string)
    requires '=' !in key
    ensures FirstEquals(key + "=" + rest) == Some(|key|)
  {
    if key != [] {
      FirstEqualsAfterKey(key[1..], rest);
      assert (key + "=" + rest)[1..] == key[1..] + "=" + rest;
    }
  }

  /**
   * The variable text is decodable: for keys without `=` and keys and values
   * without `,`, splitting at commas yields one entry per visited key, in
   * order, and each entry parses back to that key and its value. So every map
   * entry appears exactly once.
   */
  lemma VarsTextDecodes(vars: VarMap, order: seq<string>)
    requires IsEnumeration(order, vars.Keys) && |vars| > 0
    requires forall k :: k in vars ==> '=' !in k && ',' !in k && ',' !in vars[k]
    ensures |SplitAt(VarsText(vars, order), ',')| == |order| == |vars|
    ensures forall i :: 0 <= i < |order| ==>
      ParseVar(SplitAt(VarsText(vars, order), ',')[i]) == Some((order[i], vars[order[i]]))
  {
    EnumerationMembers(order, vars.Keys);
    var entries := Entries(vars, order);
    forall i | 0 <= i < |entries| ensures ',' !in entries[i] {
      var k := order[i];
      assert entries[i] == k + "=" + (if HasSpace(vars[k]) then "'" + vars[k] + "'" else vars[k]);
    }
    SplitAtJoin(entries, ',');
    assert [','] == ",";
    forall i | 0 <= i < |order| ensures ParseVar(entries[i]) == Some((order[i], vars[order[i]])) {
      ParseRenderVar(order[i], vars[order[i]]);
    }
  }

  /** Consecutive entries are separated by exactly one comma, none leading or trailing. */
  lemma VarsTextSeparators(vars: VarMap, order: seq<string>, k: string)
    requires forall x :: x in order ==> x in vars
    requires k in vars
    ensures VarsText(vars, order + [k]) ==
      if order == [] then RenderVar(k, vars[k]) else VarsText(vars, order) + "," + RenderVar(k, vars[k])
    ensures |VarsText(vars, order + [k])| > 0
  {
    EntriesSnoc(vars, order, k);
    JoinSnoc(Entries(vars, order), RenderVar(k, vars[k]), ",");
  }

  /** With a format `P%sS`, the result is P, the entries, then S. */
  lemma BuildVarsFormat(p: string, q: string, vars: VarMap, order: seq<string>)
    requires '%' !in p && '%' !in q
    requires forall k :: k in order ==> k in vars
    ensures OneStringVerb(p + "%s" + q)
    ensures Sprintf(p + "%s" + q, VarsText(vars, order)) == p + VarsText(vars, order) + q
  {
    SprintfSubstitutes(p, q, VarsText(vars, order));
  }
}

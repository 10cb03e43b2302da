/**
 * The pieces of Go's standard library that the command builders call:
 * strings.Join, strconv.Itoa, a single-pattern strings.Replacer ("\r\n" -> "\n"),
 * textproto.TrimString, the byte-wise string order used by sort.Strings, and
 * fmt.Sprintf with a format holding one `%s` verb.
 *
 * A Go string is a sequence of bytes; here it is a `string` with one character
 * per byte, so `|s|` is Go's `len(s)`.
 */
module Text {

  const CRLF: string := "\r\n"

  // ---------------------------------------------------------------------------
  // strings.Join

  /** The parts with `sep` between consecutive ones, none leading or trailing. */
  function Join(parts: seq<string>, sep: string): string
  {
    if |parts| == 0 then ""
    else if |parts| == 1 then parts[0]
    else parts[0] + sep + Join(parts[1..], sep)
  }

  /** Appending one part puts exactly one separator before it (none if it is the first). */
  lemma {:induction false} JoinSnoc(parts: seq<string>, x: string, sep: string)
    ensures Join(parts + [x], sep) == if parts == [] then x else Join(parts, sep) + sep + x
  {
    if |parts| == 1 {
      assert parts + [x] == [parts[0], x];
      assert [parts[0], x][1..] == [x];
    } else if |parts| > 1 {
      assert (parts + [x])[1..] == parts[1..] + [x];
      JoinSnoc(parts[1..], x, sep);
    } else {
      assert parts + [x] == [x];
    }
  }

  // ---------------------------------------------------------------------------
  // strconv.Itoa and its inverse

  predicate IsDigit(c: char) { '0' <= c <= '9' }

  predicate AllDigits(s: string) { forall i :: 0 <= i < |s| ==> IsDigit(s[i]) }

  function DigitChar(d: nat): (c: char)
    requires d < 10
    ensures IsDigit(c)
  {
    (48 + d) as char
  }

  function DigitValue(c: char): nat
    requires IsDigit(c)
  {
    c as int - 48
  }

  /** Decimal text of a natural number, most significant digit first, no leading zero. */
  function NatToDecimal(n: nat): (r: string)
    ensures |r| > 0 && AllDigits(r)
    ensures r[0] == '0' ==> n == 0
    decreases n
  {
    if n < 10 then [DigitChar(n)] else NatToDecimal(n / 10) + [DigitChar(n % 10)]
  }

  /** strconv.Itoa: a '-' sign for negative numbers, then the decimal digits. */
  function Itoa(i: int): string
  {
    if i < 0 then "-" + NatToDecimal(-i) else NatToDecimal(i)
  }

  function DecimalToNat(s: string): nat
    requires AllDigits(s)
  {
    if |s| == 0 then 0 else DecimalToNat(s[..|s| - 1]) * 10 + DigitValue(s[|s| - 1])
  }

  /** The text strconv.Atoi accepts without a '+' sign. */
  predicate IsIntText(s: string)
  {
    |s| > 0 && if s[0] == '-' then |s| > 1 && AllDigits(s[1..]) else AllDigits(s)
  }

  function ParseInt(s: string): int
    requires IsIntText(s)
  {
    if s[0] == '-' then -(DecimalToNat(s[1..]) as int) else DecimalToNat(s)
  }

  lemma {:induction false} DecimalRoundTrip(n: nat)
    ensures DecimalToNat(NatToDecimal(n)) == n
    decreases n
  {
    if n >= 10 {
      var hi := NatToDecimal(n / 10);
      var s := hi + [DigitChar(n % 10)];
      assert s[..|s| - 1] == hi;
      DecimalRoundTrip(n / 10);
    }
  }

  /** Itoa renders every integer as text that parses back to it. */
  lemma ItoaRoundTrip(i: int)
    ensures IsIntText(Itoa(i))
    ensures ParseInt(Itoa(i)) == i
  {
    if i < 0 {
      var d := NatToDecimal(-i);
      assert ("-" + d)[1..] == d;
      DecimalRoundTrip(-i);
    } else {
      DecimalRoundTrip(i);
    }
  }

  /** Itoa is injective: different numbers never render alike. */
  lemma ItoaInjective(i: int, j: int)
    requires Itoa(i) == Itoa(j)
    ensures i == j
  {
    ItoaRoundTrip(i);
    ItoaRoundTrip(j);
  }

  // ---------------------------------------------------------------------------
  // strings.NewReplacer("\r\n", "\n").Replace

  /**
   * Replaces the non-overlapping occurrences of CRLF, scanning left to right,
   * by a lone LF. It is a single pass: "\r\r\n" becomes "\r\n".
   */
  function ReplaceCRLF(s: string): (r: string)
    ensures |r| <= |s|
    decreases |s|
  {
    if |s| == 0 then ""
    else if |s| >= 2 && s[0] == '\r' && s[1] == '\n' then "\n" + ReplaceCRLF(s[2..])
    else [s[0]] + ReplaceCRLF(s[1..])
  }

  predicate NoCRLF(s: string)
  {
    forall i :: 0 <= i < |s| - 1 ==> !(s[i] == '\r' && s[i + 1] == '\n')
  }

  /** A value without CRLF is left as it is. */
  lemma {:induction false} ReplaceCRLFWithout(s: string)
    requires NoCRLF(s)
    ensures ReplaceCRLF(s) == s
    decreases |s|
  {
    if |s| > 0 {
      assert NoCRLF(s[1..]) by {
        forall i | 0 <= i < |s[1..]| - 1 ensures !(s[1..][i] == '\r' && s[1..][i + 1] == '\n') {
          assert s[1..][i] == s[i + 1] && s[1..][i + 1] == s[i + 2];
        }
      }
      ReplaceCRLFWithout(s[1..]);
    }
  }

  /** One pass does not remove every CRLF. */
  lemma ReplaceCRLFSinglePass()
    ensures ReplaceCRLF("\r\r\n") == "\r\n"
  {
    assert "\r\r\n"[1..] == "\r\n";
    assert "\r\n"[2..] == "";
  }

  /** The pieces between left-to-right, non-overlapping CRLF occurrences (strings.Split). */
  function SplitCRLF(s: string): (r: seq<string>)
    ensures |r| > 0
    decreases |s|
  {
    if |s| >= 2 && s[0] == '\r' && s[1] == '\n' then [""] + SplitCRLF(s[2..])
    else if |s| == 0 then [""]
    else
      var rest := SplitCRLF(s[1..]);
      [[s[0]] + rest[0]] + rest[1..]
  }

  lemma JoinCons(x: string, parts: seq<string>, sep: string)
    requires |parts| > 0
    ensures Join([x] + parts, sep) == x + sep + Join(parts, sep)
  {
    assert ([x] + parts)[1..] == parts;
  }

  lemma JoinPrependToFirst(c: string, parts: seq<string>, sep: string)
    requires |parts| > 0
    ensures Join([c + parts[0]] + parts[1..], sep) == c + Join(parts, sep)
  {
    if |parts| > 1 {
      JoinCons(c + parts[0], parts[1..], sep);
      JoinCons(parts[0], parts[1..], sep);
      assert parts == [parts[0]] + parts[1..];
    } else {
      assert [c + parts[0]] + parts[1..] == [c + parts[0]];
    }
  }

  /** Joining the pieces with CRLF gives back the value. */
  lemma {:induction false} SplitCRLFJoin(s: string)
    ensures Join(SplitCRLF(s), CRLF) == s
    decreases |s|
  {
    if |s| >= 2 && s[0] == '\r' && s[1] == '\n' {
      SplitCRLFJoin(s[2..]);
      JoinCons("", SplitCRLF(s[2..]), CRLF);
      assert s == CRLF + s[2..];
    } else if |s| > 0 {
      SplitCRLFJoin(s[1..]);
      JoinPrependToFirst([s[0]], SplitCRLF(s[1..]), CRLF);
      assert s == [s[0]] + s[1..];
    }
  }

  /** The replacer is strings.ReplaceAll: split at CRLF, join with LF. */
  lemma {:induction false} ReplaceCRLFIsSplitJoin(s: string)
    ensures ReplaceCRLF(s) == Join(SplitCRLF(s), "\n")
    decreases |s|
  {
    if |s| >= 2 && s[0] == '\r' && s[1] == '\n' {
      ReplaceCRLFIsSplitJoin(s[2..]);
      JoinCons("", SplitCRLF(s[2..]), "\n");
    } else if |s| > 0 {
      ReplaceCRLFIsSplitJoin(s[1..]);
      JoinPrependToFirst([s[0]], SplitCRLF(s[1..]), "\n");
    }
  }

  // ---------------------------------------------------------------------------
  // textproto.TrimString

  predicate IsASCIISpace(c: char) { c == ' ' || c == '\t' || c == '\n' || c == '\r' }

  predicate AllSpace(s: string) { forall i :: 0 <= i < |s| ==> IsASCIISpace(s[i]) }

  function TrimLeft(s: string): string
  {
    if |s| > 0 && IsASCIISpace(s[0]) then TrimLeft(s[1..]) else s
  }

  function TrimRight(s: string): string
  {
    if |s| > 0 && IsASCIISpace(s[|s| - 1]) then TrimRight(s[..|s| - 1]) else s
  }

  /** Drops the leading, then the trailing ASCII white space (' ', '\t', '\n', '\r'). */
  function TrimString(s: string): string
  {
    TrimRight(TrimLeft(s))
  }

  lemma {:induction false} TrimLeftSplits(s: string) returns (p: string)
    ensures s == p + TrimLeft(s) && AllSpace(p)
    ensures TrimLeft(s) == "" || !IsASCIISpace(TrimLeft(s)[0])
    decreases |s|
  {
    if |s| > 0 && IsASCIISpace(s[0]) {
      var p' := TrimLeftSplits(s[1..]);
      p := [s[0]] + p';
      assert s == [s[0]] + s[1..];
    } else {
      p := "";
    }
  }

  lemma {:induction false} TrimRightSplits(s: string) returns (q: string)
    ensures s == TrimRight(s) + q && AllSpace(q)
    ensures TrimRight(s) == "" || !IsASCIISpace(TrimRight(s)[|TrimRight(s)| - 1])
    ensures TrimRight(s) != "" ==> TrimRight(s)[0] == s[0]
    decreases |s|
  {
    if |s| > 0 && IsASCIISpace(s[|s| - 1]) {
      var q' := TrimRightSplits(s[..|s| - 1]);
      q := q' + [s[|s| - 1]];
      assert s == s[..|s| - 1] + [s[|s| - 1]];
    } else {
      q := "";
    }
  }

  /**
   * TrimString(s) is s with an all-space prefix and an all-space suffix cut
   * off, and what remains neither starts nor ends with white space.
   */
  lemma TrimStringSpec(s: string) returns (p: string, q: string)
    ensures s == p + TrimString(s) + q
    ensures AllSpace(p) && AllSpace(q)
    ensures TrimString(s) == "" || (!IsASCIISpace(TrimString(s)[0]) && !IsASCIISpace(TrimString(s)[|TrimString(s)| - 1]))
  {
    p := TrimLeftSplits(s);
    q := TrimRightSplits(TrimLeft(s));
  }

  // ---------------------------------------------------------------------------
  // The order of Go's `<` on strings (byte-wise lexicographic), used by sort.Strings.
  // Comparing code points gives the same order as comparing UTF-8 bytes.

  predicate Below(a: string, b: string)
  {
    if |a| == 0 then |b| > 0
    else |b| > 0 && (a[0] < b[0] || (a[0] == b[0] && Below(a[1..], b[1..])))
  }

  lemma {:induction false} BelowIrreflexive(a: string)
    ensures !Below(a, a)
  {
    if |a| > 0 { BelowIrreflexive(a[1..]); }
  }

  lemma {:induction false} BelowAsymmetric(a: string, b: string)
    requires Below(a, b)
    ensures !Below(b, a)
  {
    if |a| > 0 && |b| > 0 && a[0] == b[0] { BelowAsymmetric(a[1..], b[1..]); }
  }

  lemma {:induction false} BelowTransitive(a: string, b: string, c: string)
    requires Below(a, b) && Below(b, c)
    ensures Below(a, c)
  {
    if |a| > 0 && a[0] == b[0] && b[0] == c[0] { BelowTransitive(a[1..], b[1..], c[1..]); }
  }

  lemma {:induction false} BelowTotal(a: string, b: string)
    requires a != b
    ensures Below(a, b) || Below(b, a)
  {
    if |a| > 0 && |b| > 0 && a[0] == b[0] {
      assert a == [a[0]] + a[1..] && b == [b[0]] + b[1..];
      BelowTotal(a[1..], b[1..]);
    }
  }

  // ---------------------------------------------------------------------------
  // fmt.Sprintf(format, arg) for a format whose only verb is one `%s`.

  predicate OneStringVerb(f: string)
  {
    if |f| == 0 then false
    else if f[0] == '%' then |f| >= 2 && f[1] == 's' && '%' !in f[2..]
    else OneStringVerb(f[1..])
  }

  function Sprintf(f: string, arg: string): string
    requires OneStringVerb(f)
  {
    if f[0] == '%' then arg + f[2..] else [f[0]] + Sprintf(f[1..], arg)
  }

  /** `%s` is replaced by the argument; the text around it is kept. */
  lemma {:induction false} SprintfSubstitutes(p: string, q: string, arg: string)
    requires '%' !in p && '%' !in q
    ensures OneStringVerb(p + "%s" + q)
    ensures Sprintf(p + "%s" + q, arg) == p + arg + q
  {
    var f := p + "%s" + q;
    if p == [] {
      assert f == "%s" + q;
      assert f[0] == '%' && f[1] == 's';
      assert f[2..] == q;
    } else {
      assert f[0] == p[0];
      assert f[1..] == p[1..] + "%s" + q;
      assert '%' !in p[1..] by {
        assert forall c :: c in p[1..] ==> c in p;
      }
      SprintfSubstitutes(p[1..], q, arg);
      assert Sprintf(f, arg) == [p[0]] + Sprintf(f[1..], arg);
      assert [p[0]] + (p[1..] + arg + q) == p + arg + q;
    }
  }
}

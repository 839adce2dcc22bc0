/** The string primitives the front end relies on: Python's `str.strip`,
    `str.split`, substring `in`, `int` on a run of digits and decimal
    formatting of a natural number. Whitespace and digits are ASCII only. */
module Text {

  /** The ASCII characters Python's `str.isspace` accepts: tab, line feed,
      vertical tab, form feed, carriage return, the four separators
      0x1C-0x1F and space. */
  predicate IsSpace(c: char) {
    var k := c as int;
    k == 32 || 9 <= k <= 13 || 28 <= k <= 31
  }

  predicate NotSpace(c: char) {
    !IsSpace(c)
  }

  predicate AllSpace(s: string) {
    forall i :: 0 <= i < |s| ==> IsSpace(s[i])
  }

  /** A non-empty string without whitespace: what `str.split` yields. */
  predicate IsToken(s: string) {
    s != [] && forall i :: 0 <= i < |s| ==> NotSpace(s[i])
  }

  // ---------------------------------------------------------------------
  // strip

  /** `s` without its leading whitespace. */
  function TrimStart(s: string): (r: string)
    ensures |r| <= |s| && r == s[|s| - |r|..]
    ensures AllSpace(s[..|s| - |r|])
    ensures r == [] || NotSpace(r[0])
  {
    if s != [] && IsSpace(s[0]) then
      var r := TrimStart(s[1..]);
      assert s[..|s| - |r|] == [s[0]] + s[1..][..|s| - 1 - |r|];
      r
    else s
  }

  /** `s` without its trailing whitespace. */
  function TrimEnd(s: string): (r: string)
    ensures r <= s
    ensures AllSpace(s[|r|..])
    ensures r == [] || NotSpace(r[|r| - 1])
  {
    if s != [] && IsSpace(s[|s| - 1]) then
      var r := TrimEnd(s[..|s| - 1]);
      assert s[|r|..] == s[..|s| - 1][|r|..] + [s[|s| - 1]];
      r
    else s
  }

  /** Python's `s.strip()`: the middle of `s` once the whitespace on both
      ends is cut away. */
  function Strip(s: string): (r: string)
    ensures exists i :: 0 <= i <= |s| - |r| && r == s[i..][..|r|] && AllSpace(s[..i]) && AllSpace(s[i..][|r|..])
    ensures r == [] || (NotSpace(r[0]) && NotSpace(r[|r| - 1]))
  {
    StripWitness(s);
    TrimEnd(TrimStart(s))
  }

  lemma StripWitness(s: string)
    ensures var t := TrimStart(s);
      var r := TrimEnd(t);
      var i := |s| - |t|;
      && 0 <= i <= |s| - |r| && r == s[i..][..|r|] && AllSpace(s[..i]) && AllSpace(s[i..][|r|..])
  {
    var t := TrimStart(s);
    var i := |s| - |t|;
    assert s[i..] == t;
  }

  lemma {:induction false} TrimStartPadded(a: string, m: string)
    requires AllSpace(a)
    requires m == [] || NotSpace(m[0])
    ensures TrimStart(a + m) == m
    decreases |a|
  {
    if a != [] {
      assert (a + m)[1..] == a[1..] + m;
      TrimStartPadded(a[1..], m);
    } else {
      assert a + m == m;
    }
  }

  lemma {:induction false} TrimEndPadded(m: string, b: string)
    requires AllSpace(b)
    requires m == [] || NotSpace(m[|m| - 1])
    ensures TrimEnd(m + b) == m
    decreases |b|
  {
    if b != [] {
      assert (m + b)[..|m + b| - 1] == m + b[..|b| - 1];
      TrimEndPadded(m, b[..|b| - 1]);
    } else {
      assert m + b == m;
    }
  }

  /** Stripping is the inverse of padding: whatever whitespace surrounds a
      string whose ends are not whitespace, `Strip` recovers exactly it. */
  lemma StripPadded(a: string, m: string, b: string)
    requires AllSpace(a) && AllSpace(b)
    requires m == [] || (NotSpace(m[0]) && NotSpace(m[|m| - 1]))
    ensures Strip(a + m + b) == m
  {
    if m == [] {
      assert a + m + b == a + b;
      TrimStartPadded(a + b, []);
      assert a + b + [] == a + b;
      assert TrimStart(a + b) == [];
    } else {
      assert a + m + b == a + (m + b);
      TrimStartPadded(a, m + b);
      TrimEndPadded(m, b);
    }
  }

  // ---------------------------------------------------------------------
  // split

  /** The longest prefix of `s` whose characters all satisfy `p`. */
  function Span(s: string, p: char -> bool): (r: string)
    ensures r <= s
    ensures forall i :: 0 <= i < |r| ==> p(r[i])
    ensures |r| == |s| || !p(s[|r|])
  {
    if s != [] && p(s[0]) then [s[0]] + Span(s[1..], p) else []
  }

  lemma {:induction false} SpanOfRun(run: string, rest: string, p: char -> bool)
    requires forall i :: 0 <= i < |run| ==> p(run[i])
    requires rest == [] || !p(rest[0])
    ensures Span(run + rest, p) == run
    decreases |run|
  {
    if run == [] {
      assert run + rest == rest;
    } else {
      assert (run + rest)[1..] == run[1..] + rest;
      SpanOfRun(run[1..], rest, p);
      assert run == [run[0]] + run[1..];
    }
  }

  /** Python's `s.split()`: the maximal runs of non-whitespace, in order. */
  function Split(s: string): (r: seq<string>)
    ensures r == [] <==> AllSpace(s)
    decreases |s|
  {
    var t := TrimStart(s);
    if t == [] then
      assert s[..|s|] == s;
      []
    else
      assert !AllSpace(s) by {
        assert s[|s| - |t|] == t[0] && !IsSpace(t[0]);
      }
      var w := Span(t, NotSpace);
      assert w != [];
      [w] + Split(t[|w|..])
  }

  /** Every string in `ts` is a token. */
  predicate AllTokens(ts: seq<string>)
    decreases |ts|
  {
    ts == [] || (IsToken(ts[0]) && AllTokens(ts[1..]))
  }

  lemma AllTokensCons(w: string, ts: seq<string>)
    requires IsToken(w) && AllTokens(ts)
    ensures AllTokens([w] + ts)
  {
    assert ([w] + ts)[1..] == ts;
  }

  /** Every piece `Split` yields is a token. */
  lemma {:induction false} SplitYieldsTokens(s: string)
    ensures AllTokens(Split(s))
    decreases |s|
  {
    var t := TrimStart(s);
    if t != [] {
      var w := Span(t, NotSpace);
      assert w != [] by {
        assert s[|s| - |t|] == t[0];
      }
      SplitYieldsTokens(t[|w|..]);
      AllTokensCons(w, Split(t[|w|..]));
    }
  }

  // ---------------------------------------------------------------------
  // substring containment

  /** `needle` occurs in `hay` starting at index `i`. */
  predicate OccursAt(hay: string, needle: string, i: int) {
    0 <= i && i + |needle| <= |hay| && hay[i..i + |needle|] == needle
  }

  /** Python's `needle in hay` on strings. */
  predicate Contains(hay: string, needle: string)
    decreases |hay|
  {
    needle <= hay || (hay != [] && Contains(hay[1..], needle))
  }

  lemma {:induction false} ContainsIffOccurs(hay: string, needle: string)
    ensures Contains(hay, needle) <==> exists i :: OccursAt(hay, needle, i)
    decreases |hay|
  {
    if needle <= hay {
      assert OccursAt(hay, needle, 0);
    } else if hay == [] {
      assert needle != [];
    } else {
      ContainsIffOccurs(hay[1..], needle);
      if exists i :: OccursAt(hay[1..], needle, i) {
        var i :| OccursAt(hay[1..], needle, i);
        assert hay[i + 1..i + 1 + |needle|] == hay[1..][i..i + |needle|];
        assert OccursAt(hay, needle, i + 1);
      }
      if exists i :: OccursAt(hay, needle, i) {
        var i :| OccursAt(hay, needle, i);
        assert i != 0;
        assert hay[1..][i - 1..i - 1 + |needle|] == hay[i..i + |needle|];
        assert OccursAt(hay[1..], needle, i - 1);
      }
    }
  }

  // ---------------------------------------------------------------------
  // numerals

  predicate IsDigit(c: char) {
    '0' <= c <= '9'
  }

  predicate AllDigits(s: string) {
    forall i :: 0 <= i < |s| ==> IsDigit(s[i])
  }

  /** What `\d+` matches. */
  predicate IsNumeral(s: string) {
    s != [] && AllDigits(s)
  }

  /** A numeral as Python's `str` of an `int` writes it: no leading zero
      unless the number is zero. */
  predicate IsCanonical(s: string) {
    IsNumeral(s) && (s[0] == '0' ==> |s| == 1)
  }

  function DigitValue(c: char): (d: nat)
    requires IsDigit(c)
    ensures d < 10
  {
    c as int - '0' as int
  }

  function DigitChar(d: nat): (c: char)
    requires d < 10
    ensures IsDigit(c) && DigitValue(c) == d
  {
    ('0' as int + d) as char
  }

  /** Python's `int` on a string of decimal digits; leading zeros are allowed. */
  function ParseNat(s: string): nat
    requires AllDigits(s)
    decreases |s|
  {
    if s == [] then 0 else 10 * ParseNat(s[..|s| - 1]) + DigitValue(s[|s| - 1])
  }

  /** Python's `str` of a non-negative `int`. */
  function NatToString(n: nat): (s: string)
    ensures IsCanonical(s)
    ensures n < 10 <==> |s| == 1
  {
    if n < 10 then [DigitChar(n)] else NatToString(n / 10) + [DigitChar(n % 10)]
  }

  lemma {:induction false} ParseNatToString(n: nat)
    ensures ParseNat(NatToString(n)) == n
  {
    var s := NatToString(n);
    if n >= 10 {
      assert s[..|s| - 1] == NatToString(n / 10);
      ParseNatToString(n / 10);
    }
  }

  lemma {:induction false} ParseNatPositive(s: string)
    requires IsNumeral(s) && s[0] != '0'
    ensures ParseNat(s) >= 1
    decreases |s|
  {
    if |s| > 1 {
      ParseNatPositive(s[..|s| - 1]);
    }
  }

  /** Formatting undoes parsing on canonical numerals; with
      `ParseNatToString` this makes the two a bijection between the naturals
      and the canonical numerals. */
  lemma {:induction false} NatToStringParse(s: string)
    requires IsCanonical(s)
    ensures NatToString(ParseNat(s)) == s
    decreases |s|
  {
    var n := ParseNat(s);
    if |s| == 1 {
      assert s[..0] == [];
      assert ParseNat(s[..0]) == 0;
      assert n == DigitValue(s[0]);
      assert [DigitChar(n)] == s;
    } else {
      var p := s[..|s| - 1];
      ParseNatPositive(p);
      assert n / 10 == ParseNat(p) && n % 10 == DigitValue(s[|s| - 1]);
      NatToStringParse(p);
      assert s == p + [s[|s| - 1]];
    }
  }
}

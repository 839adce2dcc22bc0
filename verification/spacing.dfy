/** What `str.split()` yields, characterised both ways: tokens laid out
    with any runs of whitespace split back into those tokens, and every
    string is its parts laid out that way. */
module Spacing {
  import opened Text

  /** Tokens laid out with whitespace: `seps[k]` is the run before `ts[k]`. */
  function Spaced(seps: seq<string>, ts: seq<string>): string
    requires |seps| == |ts|
    decreases |ts|
  {
    if ts == [] then [] else seps[0] + ts[0] + Spaced(seps[1..], ts[1..])
  }

  /** Runs of whitespace that can separate tokens: only the run before the
      first token may be empty. */
  predicate Separators(seps: seq<string>) {
    seps == [] || (AllSpace(seps[0]) && Gaps(seps[1..]))
  }

  /** Runs of whitespace between tokens: none of them is empty. */
  predicate Gaps(seps: seq<string>)
    decreases |seps|
  {
    seps == [] || (seps[0] != [] && AllSpace(seps[0]) && Gaps(seps[1..]))
  }

  lemma SeparatorsTail(seps: seq<string>)
    requires Separators(seps) && seps != []
    ensures Separators(seps[1..])
    ensures |seps| > 1 ==> seps[1..][0] != []
  {
  }

  lemma AllTokensTail(ts: seq<string>)
    requires AllTokens(ts) && ts != []
    ensures AllTokens(ts[1..]) && IsToken(ts[0])
  {
  }

  lemma SpacedCons(seps: seq<string>, ts: seq<string>, b: string)
    requires |seps| == |ts| && ts != []
    ensures Spaced(seps, ts) + b == seps[0] + (ts[0] + (Spaced(seps[1..], ts[1..]) + b))
  {
  }

  /** Laid-out tokens whose first run is not empty begin with whitespace. */
  lemma SpacedStart(seps: seq<string>, ts: seq<string>, b: string)
    requires |seps| == |ts| && Separators(seps) && AllSpace(b)
    requires ts != [] ==> seps[0] != []
    ensures var r := Spaced(seps, ts) + b; r == [] || IsSpace(r[0])
  {
    if ts != [] {
      SpacedCons(seps, ts, b);
    } else {
      assert Spaced(seps, ts) + b == b;
    }
  }

  /** `split()` yields exactly the tokens, whatever runs of whitespace
      separate and surround them. */
  lemma {:induction false} SplitSpaced(seps: seq<string>, ts: seq<string>, b: string)
    requires |seps| == |ts| && Separators(seps) && AllTokens(ts) && AllSpace(b)
    ensures Split(Spaced(seps, ts) + b) == ts
    decreases |ts|
  {
    if ts == [] {
      assert Spaced(seps, ts) + b == b;
    } else {
      var rest := Spaced(seps[1..], ts[1..]) + b;
      SeparatorsTail(seps);
      AllTokensTail(ts);
      SplitSpaced(seps[1..], ts[1..], b);
      SpacedStart(seps[1..], ts[1..], b);
      SpacedCons(seps, ts, b);
      SplitJoin(Spaced(seps, ts) + b, seps[0], ts[0], rest, ts[1..]);
      assert ts == [ts[0]] + ts[1..];
    }
  }

  /** `SplitToken` on names for its parts, so that the caller's context does
      not see `Split` unfolded. */
  lemma SplitJoin(s: string, a: string, w: string, rest: string, tail: seq<string>)
    requires s == a + (w + rest) && Split(rest) == tail
    requires AllSpace(a) && IsToken(w) && (rest == [] || IsSpace(rest[0]))
    ensures Split(s) == [w] + tail
  {
    SplitToken(a, w, rest);
  }

  /** One turn of `Split`: leading whitespace, a token, then whitespace or
      nothing. */
  lemma SplitToken(a: string, w: string, rest: string)
    requires AllSpace(a) && IsToken(w) && (rest == [] || IsSpace(rest[0]))
    ensures Split(a + (w + rest)) == [w] + Split(rest)
  {
    TrimStartPadded(a, w + rest);
    SpanOfRun(w, rest, NotSpace);
    assert (w + rest)[|w|..] == rest;
  }

  lemma Decompose(s: string, n: nat, t: string, w: string, rest: string)
    requires n <= |s| && t == s[n..] && t == w + rest
    ensures s == s[..n] + (w + rest)
  {
    assert s == s[..n] + s[n..];
  }

  lemma SpanNotEmpty(s: string)
    requires TrimStart(s) != []
    ensures Span(TrimStart(s), NotSpace) != []
  {
    var t := TrimStart(s);
    assert t[0] == s[|s| - |t|] && NotSpace(t[0]);
  }

  lemma SplitStep(s: string)
    requires TrimStart(s) != []
    ensures var t := TrimStart(s);
      var w := Span(t, NotSpace);
      Split(s) == [w] + Split(t[|w|..])
  {
  }

  lemma SpanSplits(t: string, w: string)
    requires w == Span(t, NotSpace) && w != []
    ensures IsToken(w) && t == w + t[|w|..]
    ensures t[|w|..] == [] || IsSpace(t[|w|..][0])
  {
    assert t == w + t[|w|..];
  }

  /** Whitespace that precedes a token it is not part of is not empty. */
  lemma FirstSeparator(seps: seq<string>, ts: seq<string>, b: string)
    requires |seps| == |ts| && AllTokens(ts) && ts != []
    requires var r := Spaced(seps, ts) + b; r == [] || IsSpace(r[0])
    ensures seps[0] != []
  {
    SpacedCons(seps, ts, b);
    AllTokensTail(ts);
  }

  lemma SeparatorsCons(a: string, seps: seq<string>)
    requires AllSpace(a) && Separators(seps) && (seps != [] ==> seps[0] != [])
    ensures Separators([a] + seps)
  {
    assert ([a] + seps)[1..] == seps;
  }

  /** Conversely, every string is its `split()` parts laid out with runs of
      whitespace: the parts are the maximal runs of non-whitespace. */
  lemma {:induction false} SplitCovers(s: string)
    ensures exists seps, b :: |seps| == |Split(s)| && Separators(seps) && AllSpace(b) && s == Spaced(seps, Split(s)) + b
    decreases |s|
  {
    var t := TrimStart(s);
    if t == [] {
      var seps: seq<string> := [];
      assert Split(s) == [];
      assert s == Spaced(seps, Split(s)) + s;
    } else {
      var rest := t[|Span(t, NotSpace)|..];
      SplitCovers(rest);
      var seps, b :| |seps| == |Split(rest)| && Separators(seps) && AllSpace(b) && rest == Spaced(seps, Split(rest)) + b;
      SplitCoversStep(s, seps, b);
    }
  }

  /** The layout of a string from the layout of what follows its first part. */
  lemma SplitCoversStep(s: string, seps: seq<string>, b: string)
    requires TrimStart(s) != []
    requires var t := TrimStart(s);
      var rest := t[|Span(t, NotSpace)|..];
      |seps| == |Split(rest)| && Separators(seps) && AllSpace(b) && rest == Spaced(seps, Split(rest)) + b
    ensures var a := s[..|s| - |TrimStart(s)|];
      |[a] + seps| == |Split(s)| && Separators([a] + seps) && s == Spaced([a] + seps, Split(s)) + b
  {
    var t := TrimStart(s);
    var n := |s| - |t|;
    var w := Span(t, NotSpace);
    var rest := t[|w|..];
    assert w != [] && Split(s) == [w] + Split(rest) by {
      SpanNotEmpty(s);
      SplitStep(s);
    }
    assert IsToken(w) && s == s[..n] + (w + rest) && (rest == [] || IsSpace(rest[0])) by {
      SpanSplits(t, w);
      Decompose(s, n, t, w, rest);
    }
    assert AllTokens(Split(rest)) by {
      SplitYieldsTokens(rest);
    }
    Relayout(s, Split(s), s[..n], w, rest, seps, Split(rest), b);
  }

  /** `LayoutCons` on names for its parts, so that the caller's context does
      not see `Split` unfolded. */
  lemma Relayout(s: string, ss: seq<string>, a: string, w: string, rest: string, seps: seq<string>, ts: seq<string>, b: string)
    requires |seps| == |ts| && Separators(seps) && AllTokens(ts) && ss == [w] + ts
    requires s == a + (w + rest) && rest == Spaced(seps, ts) + b
    requires AllSpace(a) && IsToken(w) && (rest == [] || IsSpace(rest[0]))
    ensures |[a] + seps| == |ss| && Separators([a] + seps) && s == Spaced([a] + seps, ss) + b
  {
    LayoutCons(s, a, w, rest, seps, ts, b);
  }

  /** A run of whitespace and a token in front of a laid-out string. */
  lemma LayoutCons(s: string, a: string, w: string, rest: string, seps: seq<string>, ts: seq<string>, b: string)
    requires |seps| == |ts| && Separators(seps) && AllTokens(ts)
    requires s == a + (w + rest) && rest == Spaced(seps, ts) + b
    requires AllSpace(a) && IsToken(w) && (rest == [] || IsSpace(rest[0]))
    ensures Separators([a] + seps) && s == Spaced([a] + seps, [w] + ts) + b
  {
    if ts != [] {
      FirstSeparator(seps, ts, b);
    }
    SeparatorsCons(a, seps);
    SpacedCons([a] + seps, [w] + ts, b);
    assert ([a] + seps)[1..] == seps && ([w] + ts)[1..] == ts;
  }
}

/** Recognisers for the two fixed patterns the front end hands to `re.match`:

      IF (\w+)_SENSOR (\w+) < (\d+) THEN WATER (\w+) FOR (\d+) MINUTES
      SCHEDULE WATER (\w+) AT ([0-9]{2}:[0-9]{2} [AP]M) DAILY

    A pattern is a list of pieces: literals, and groups that capture text.
    `re.match` anchors at the start only, so any text may follow a match.
    Every greedy group in these two patterns is followed by a literal that
    begins with a non-word character, so backtracking can never shorten a
    group: the group is the whole run of word (or digit) characters, and
    the first IF group is that run minus the `_SENSOR` that must end it. */
module Patterns {
  import opened Optional
  import opened Text
  import opened Clock

  /** `\w`, restricted to ASCII. */
  predicate IsWordChar(c: char) {
    ('a' <= c <= 'z') || ('A' <= c <= 'Z') || ('0' <= c <= '9') || c == '_'
  }

  /** What `\w+` matches. */
  predicate IsWord(s: string) {
    s != [] && forall i :: 0 <= i < |s| ==> IsWordChar(s[i])
  }

  // ---------------------------------------------------------------------
  // patterns

  datatype Piece =
    | Literal(text: string)  // matched verbatim
    | Word                   // (\w+)
    | Digits                 // (\d+)
    | Sensor                 // (\w+)_SENSOR, capturing the word before the suffix
    | ClockTime              // ([0-9]{2}:[0-9]{2} [AP]M)

  datatype Pattern = End | Then(piece: Piece, next: Pattern)

  /** The group texts a capturing piece accepts. */
  predicate Fills(x: Piece, g: string) {
    match x
    case Literal(_) => false
    case Word => IsWord(g)
    case Digits => IsNumeral(g)
    case Sensor => IsWord(g)
    case ClockTime => IsClockShape(g)
  }

  /** The text a piece consumes when its group is `g`. */
  function Spell(x: Piece, g: string): string {
    match x
    case Literal(t) => t
    case Sensor => g + "_SENSOR"
    case _ => g
  }

  /** `gs` are groups for `p`: one per capturing piece, in order, each of
      the right shape. */
  predicate Fits(p: Pattern, gs: seq<string>) {
    match p
    case End => gs == []
    case Then(x, next) =>
      if x.Literal? then Fits(next, gs)
      else gs != [] && Fills(x, gs[0]) && Fits(next, gs[1..])
  }

  /** The text `p` matches with groups `gs`. */
  function Spelling(p: Pattern, gs: seq<string>): string
    requires Fits(p, gs)
  {
    match p
    case End => []
    case Then(x, next) =>
      if x.Literal? then x.text + Spelling(next, gs)
      else Spell(x, gs[0]) + Spelling(next, gs[1..])
  }

  /** A piece that takes as many characters as it can. */
  predicate Greedy(x: Piece) {
    x.Word? || x.Digits? || x.Sensor?
  }

  /** Every greedy group is followed by a literal that begins with a
      character no group can contain, so the group ends where its run does. */
  predicate Separated(p: Pattern) {
    match p
    case End => true
    case Then(x, next) =>
      && (Greedy(x) ==> next.Then? && next.piece.Literal? && next.piece.text != [] && !IsWordChar(next.piece.text[0]))
      && Separated(next)
  }

  // ---------------------------------------------------------------------
  // matching

  /** What a piece captured and the text after it. */
  datatype Cut = Cut(captured: seq<string>, rest: string)

  /** One piece at the start of `s`. */
  function Take(x: Piece, s: string): (r: Option<Cut>)
    ensures r.Some? && x.Literal? ==> r.value.captured == [] && s == x.text + r.value.rest
    ensures r.Some? && !x.Literal? ==>
      && |r.value.captured| == 1 && Fills(x, r.value.captured[0])
      && s == Spell(x, r.value.captured[0]) + r.value.rest
  {
    match x
    case Literal(t) =>
      if t <= s then
        assert s == s[..|t|] + s[|t|..];
        Some(Cut([], s[|t|..]))
      else None
    case Word =>
      var w := Span(s, IsWordChar);
      if w == [] then None
      else
        assert s == w + s[|w|..];
        Some(Cut([w], s[|w|..]))
    case Digits =>
      var w := Span(s, IsDigit);
      if w == [] then None
      else
        assert s == w + s[|w|..];
        Some(Cut([w], s[|w|..]))
    case Sensor =>
      var w := Span(s, IsWordChar);
      var n := |w|;
      if n > 7 && w[n - 7..] == "_SENSOR" then
        assert w == w[..n - 7] + "_SENSOR";
        assert s == w + s[n..];
        Some(Cut([w[..n - 7]], s[n..]))
      else None
    case ClockTime =>
      if |s| >= 8 && IsClockShape(s[..8]) then
        assert s == s[..8] + s[8..];
        Some(Cut([s[..8]], s[8..]))
      else None
  }

  /** `re.match(p, s)`: the groups, or nothing when `s` does not begin with
      a match. */
  function Match(p: Pattern, s: string): (r: Option<seq<string>>)
    ensures r.Some? ==> Fits(p, r.value)
  {
    match p
    case End => Some([])
    case Then(x, next) =>
      var c :- Take(x, s);
      var gs :- Match(next, c.rest);
      assert x.Literal? ==> c.captured + gs == gs;
      assert !x.Literal? ==> (c.captured + gs)[0] == c.captured[0] && (c.captured + gs)[1..] == gs;
      Some(c.captured + gs)
  }

  lemma PrefixExtend(a: string, b: string, c: string)
    requires b <= c
    ensures a + b <= a + c
  {
    assert (a + c)[..|a + b|] == a + b;
  }

  lemma Assoc(a: string, b: string, c: string)
    ensures a + b + c == a + (b + c)
  {
  }

  /** Whatever `Match` returns is a match: its text begins `s`. */
  lemma {:induction false} MatchSound(p: Pattern, s: string)
    requires Match(p, s).Some?
    ensures Spelling(p, Match(p, s).value) <= s
  {
    match p
    case End =>
    case Then(x, next) =>
      var c := Take(x, s).value;
      var gs := Match(next, c.rest).value;
      var all := Match(p, s).value;
      assert all == c.captured + gs;
      MatchSound(next, c.rest);
      if x.Literal? {
        assert all == gs;
        PrefixExtend(x.text, Spelling(next, gs), c.rest);
      } else {
        assert all[0] == c.captured[0] && all[1..] == gs;
        PrefixExtend(Spell(x, c.captured[0]), Spelling(next, gs), c.rest);
      }
  }

  /** A group followed by a character it cannot contain is taken whole. */
  lemma TakeGroup(x: Piece, g: string, rest: string)
    requires !x.Literal? && Fills(x, g)
    requires Greedy(x) ==> rest != [] && !IsWordChar(rest[0])
    ensures Take(x, Spell(x, g) + rest) == Some(Cut([g], rest))
  {
    match x
    case Word => TakeWord(g, rest);
    case Digits => TakeDigits(g, rest);
    case Sensor => TakeSensor(g, rest);
    case ClockTime => TakeClock(g, rest);
  }

  lemma TakeWord(g: string, rest: string)
    requires IsWord(g) && rest != [] && !IsWordChar(rest[0])
    ensures Take(Word, g + rest) == Some(Cut([g], rest))
  {
    SpanOfRun(g, rest, IsWordChar);
    assert (g + rest)[|g|..] == rest;
  }

  lemma TakeDigits(g: string, rest: string)
    requires IsNumeral(g) && rest != [] && !IsWordChar(rest[0])
    ensures Take(Digits, g + rest) == Some(Cut([g], rest))
  {
    SpanOfRun(g, rest, IsDigit);
    assert (g + rest)[|g|..] == rest;
  }

  lemma TakeSensor(g: string, rest: string)
    requires IsWord(g) && rest != [] && !IsWordChar(rest[0])
    ensures Take(Sensor, g + "_SENSOR" + rest) == Some(Cut([g], rest))
  {
    var run := g + "_SENSOR";
    assert forall i :: 0 <= i < |run| ==> IsWordChar(run[i]) by {
      forall i | 0 <= i < |run|
        ensures IsWordChar(run[i])
      {
        if i >= |g| {
          assert run[i] == "_SENSOR"[i - |g|];
        }
      }
    }
    SpanOfRun(run, rest, IsWordChar);
    var n := |run|;
    assert run[n - 7..] == "_SENSOR" && run[..n - 7] == g;
    assert (run + rest)[n..] == rest;
  }

  lemma TakeClock(g: string, rest: string)
    requires IsClockShape(g)
    ensures Take(ClockTime, g + rest) == Some(Cut([g], rest))
  {
    var s := g + rest;
    assert s[..8] == g && s[8..] == rest;
  }

  lemma TakeLiteral(t: string, rest: string)
    ensures Take(Literal(t), t + rest) == Some(Cut([], rest))
  {
    assert t <= t + rest && (t + rest)[|t|..] == rest;
  }

  /** One piece taken, then the rest of the pattern matched. */
  lemma MatchStep(x: Piece, next: Pattern, s: string, c: Cut, gs: seq<string>)
    requires Take(x, s) == Some(c) && Match(next, c.rest) == Some(gs)
    ensures Match(Then(x, next), s) == Some(c.captured + gs)
  {
  }

  /** Every match is found: text that begins with the rendering of fitting
      groups matches with exactly those groups, whatever follows. */
  lemma {:induction false} MatchComplete(p: Pattern, gs: seq<string>, tail: string)
    requires Separated(p) && Fits(p, gs)
    ensures Match(p, Spelling(p, gs) + tail) == Some(gs)
  {
    match p
    case End =>
    case Then(x, next) =>
      var s := Spelling(p, gs) + tail;
      if x.Literal? {
        var rest := Spelling(next, gs) + tail;
        Assoc(x.text, Spelling(next, gs), tail);
        TakeLiteral(x.text, rest);
        MatchComplete(next, gs, tail);
        MatchStep(x, next, s, Cut([], rest), gs);
        assert [] + gs == gs;
      } else {
        var g, more := gs[0], gs[1..];
        var rest := Spelling(next, more) + tail;
        Assoc(Spell(x, g), Spelling(next, more), tail);
        if Greedy(x) {
          var t := next.piece.text;
          Assoc(t, Spelling(next.next, more), tail);
          assert rest[0] == t[0];
        }
        TakeGroup(x, g, rest);
        MatchComplete(next, more, tail);
        MatchStep(x, next, s, Cut([g], rest), more);
        assert [g] + more == gs;
      }
  }

  /** `Match` is `re.match` on a separated pattern: it yields `gs` exactly
      when `gs` fits and the text begins with their rendering. */
  lemma MatchIff(p: Pattern, s: string, gs: seq<string>)
    requires Separated(p)
    ensures Match(p, s) == Some(gs) <==> Fits(p, gs) && Spelling(p, gs) <= s
  {
    if Match(p, s) == Some(gs) {
      MatchSound(p, s);
    }
    if Fits(p, gs) && Spelling(p, gs) <= s {
      var r := Spelling(p, gs);
      var tail := s[|r|..];
      PrefixSplit(r, s);
      MatchComplete(p, gs, tail);
    }
  }

  lemma PrefixSplit(r: string, s: string)
    requires r <= s
    ensures s == r + s[|r|..]
  {
  }

  // ---------------------------------------------------------------------
  // IF

  const IfPattern: Pattern :=
    Then(Literal("IF "), Then(Sensor, Then(Literal(" "), Then(Word, Then(Literal(" < "), Then(Digits,
    Then(Literal(" THEN WATER "), Then(Word, Then(Literal(" FOR "), Then(Digits, Then(Literal(" MINUTES"), End)))))))))))

  /** The five groups of an IF match, as text. */
  datatype IfGroups = IfGroups(sensorType: string, zone: string, threshold: string, waterZone: string, duration: string)

  predicate WellFormedIf(g: IfGroups) {
    && IsWord(g.sensorType) && IsWord(g.zone) && IsNumeral(g.threshold)
    && IsWord(g.waterZone) && IsNumeral(g.duration)
  }

  /** The text the IF pattern matches with groups `g`. */
  function IfText(g: IfGroups): string {
    "IF " + g.sensorType + "_SENSOR " + g.zone + " < " + g.threshold
    + " THEN WATER " + g.waterZone + " FOR " + g.duration + " MINUTES"
  }

  function IfList(g: IfGroups): seq<string> {
    [g.sensorType, g.zone, g.threshold, g.waterZone, g.duration]
  }

  lemma IfSeparated()
    ensures Separated(IfPattern)
  {
  }

  /** The groups that fit the IF pattern are five well-formed texts. */
  lemma IfFits(gs: seq<string>)
    requires Fits(IfPattern, gs)
    ensures |gs| == 5 && WellFormedIf(IfGroups(gs[0], gs[1], gs[2], gs[3], gs[4]))
  {
    var p1 := IfPattern.next.next;
    var p2 := p1.next.next;
    var p3 := p2.next.next;
    var p4 := p3.next.next;
    var p5 := p4.next.next;
    assert Fits(IfPattern.next, gs);
    var r1 := gs[1..];
    assert Fits(p1, r1);
    assert Fits(p1.next, r1);
    var r2 := r1[1..];
    assert Fits(p2, r2);
    assert Fits(p2.next, r2);
    var r3 := r2[1..];
    assert Fits(p3, r3);
    assert Fits(p3.next, r3);
    var r4 := r3[1..];
    assert Fits(p4, r4);
    assert Fits(p4.next, r4);
    assert Fits(p5, r4[1..]);
    assert Fits(p5.next, r4[1..]);
  }

  /** The IF pattern renders its groups as `IfText`. */
  lemma IfRendered(g: IfGroups)
    requires WellFormedIf(g)
    ensures Fits(IfPattern, IfList(g))
    ensures Spelling(IfPattern, IfList(g)) == IfText(g)
  {
    var gs := IfList(g);
    var p1 := IfPattern.next.next;
    var p2 := p1.next.next;
    var p3 := p2.next.next;
    var p4 := p3.next.next;
    var p5 := p4.next.next;
    assert gs[1..] == [g.zone, g.threshold, g.waterZone, g.duration];
    assert gs[1..][1..] == [g.threshold, g.waterZone, g.duration];
    assert gs[1..][1..][1..] == [g.waterZone, g.duration];
    assert gs[1..][1..][1..][1..] == [g.duration];
    assert gs[1..][1..][1..][1..][1..] == [];
    assert Fits(p5, []);
    assert Fits(p4, [g.duration]);
    assert Fits(p3, [g.waterZone, g.duration]);
    assert Fits(p2, [g.threshold, g.waterZone, g.duration]);
    assert Fits(p1, [g.zone, g.threshold, g.waterZone, g.duration]);
    assert Fits(IfPattern, gs);
    var x5 := " MINUTES";
    var x4 := " FOR " + (g.duration + x5);
    var x3 := " THEN WATER " + (g.waterZone + x4);
    var x2 := " < " + (g.threshold + x3);
    var x1 := " " + (g.zone + x2);
    assert Spelling(p5, []) == x5;
    assert Spelling(p4, [g.duration]) == x4;
    assert Spelling(p3, [g.waterZone, g.duration]) == x3;
    assert Spelling(p2, [g.threshold, g.waterZone, g.duration]) == x2;
    assert Spelling(p1, [g.zone, g.threshold, g.waterZone, g.duration]) == x1;
    assert Spelling(IfPattern, gs) == "IF " + ((g.sensorType + "_SENSOR") + x1);
    IfTextNested(g);
  }

  /** `IfText` nested the way the pattern consumes it. */
  lemma IfTextNested(g: IfGroups)
    ensures IfText(g) == "IF " + ((g.sensorType + "_SENSOR") + (" " + (g.zone + (" < " + (g.threshold
      + (" THEN WATER " + (g.waterZone + (" FOR " + (g.duration + " MINUTES")))))))))
  {
    var y1 := "IF " + g.sensorType;
    var y2 := y1 + "_SENSOR ";
    var y3 := y2 + g.zone;
    var y4 := y3 + " < ";
    var y5 := y4 + g.threshold;
    var y6 := y5 + " THEN WATER ";
    var y7 := y6 + g.waterZone;
    var y8 := y7 + " FOR ";
    var y9 := y8 + g.duration;
    var z8 := g.duration + " MINUTES";
    var z7 := " FOR " + z8;
    var z6 := g.waterZone + z7;
    var z5 := " THEN WATER " + z6;
    var z4 := g.threshold + z5;
    var z3 := " < " + z4;
    var z2 := g.zone + z3;
    var z1 := " " + z2;
    Assoc(y8, g.duration, " MINUTES");
    Assoc(y7, " FOR ", z8);
    Assoc(y6, g.waterZone, z7);
    Assoc(y5, " THEN WATER ", z6);
    Assoc(y4, g.threshold, z5);
    Assoc(y3, " < ", z4);
    Assoc(y2, g.zone, z3);
    assert "_SENSOR " + z2 == "_SENSOR" + z1;
    Assoc(y1, "_SENSOR ", z2);
    Assoc("IF " + g.sensorType, "_SENSOR", z1);
    Assoc("IF ", g.sensorType, "_SENSOR");
    Assoc("IF ", g.sensorType + "_SENSOR", z1);
  }

  /** `re.match` of the IF pattern. */
  function MatchIf(line: string): (r: Option<IfGroups>)
    ensures r.Some? ==> WellFormedIf(r.value)
  {
    var gs :- Match(IfPattern, line);
    IfFits(gs);
    Some(IfGroups(gs[0], gs[1], gs[2], gs[3], gs[4]))
  }

  /** Whatever `MatchIf` returns is an IF match that begins the line. */
  lemma MatchIfSound(line: string)
    requires MatchIf(line).Some?
    ensures IfText(MatchIf(line).value) <= line
  {
    var v := Match(IfPattern, line).value;
    IfFits(v);
    var g := MatchIf(line).value;
    assert v == IfList(g);
    MatchSound(IfPattern, line);
    IfRendered(g);
  }

  /** Every IF match is found, whatever follows it on the line. */
  lemma MatchIfComplete(g: IfGroups, tail: string)
    requires WellFormedIf(g)
    ensures MatchIf(IfText(g) + tail) == Some(g)
  {
    IfSeparated();
    IfRendered(g);
    MatchComplete(IfPattern, IfList(g), tail);
  }

  /** `MatchIf` is `re.match` of the IF pattern: it yields `g` exactly when
      `g` is well formed and the line begins with the text of `g`. */
  lemma MatchIfIff(line: string, g: IfGroups)
    ensures MatchIf(line) == Some(g) <==> WellFormedIf(g) && IfText(g) <= line
  {
    if MatchIf(line) == Some(g) {
      MatchIfSound(line);
    }
    if WellFormedIf(g) && IfText(g) <= line {
      var tail := line[|IfText(g)|..];
      PrefixSplit(IfText(g), line);
      MatchIfComplete(g, tail);
    }
  }

  // ---------------------------------------------------------------------
  // SCHEDULE

  const SchedulePattern: Pattern :=
    Then(Literal("SCHEDULE WATER "), Then(Word, Then(Literal(" AT "), Then(ClockTime, Then(Literal(" DAILY"), End)))))

  /** The two groups of a SCHEDULE match. */
  datatype ScheduleGroups = ScheduleGroups(zone: string, time: string)

  predicate WellFormedSchedule(g: ScheduleGroups) {
    IsWord(g.zone) && IsClockShape(g.time)
  }

  /** The text the SCHEDULE pattern matches with groups `g`. */
  function ScheduleText(g: ScheduleGroups): string {
    "SCHEDULE WATER " + g.zone + " AT " + g.time + " DAILY"
  }

  function ScheduleList(g: ScheduleGroups): seq<string> {
    [g.zone, g.time]
  }

  lemma ScheduleSeparated()
    ensures Separated(SchedulePattern)
  {
  }

  /** The groups that fit the SCHEDULE pattern are two well-formed texts. */
  lemma ScheduleFits(gs: seq<string>)
    requires Fits(SchedulePattern, gs)
    ensures |gs| == 2 && WellFormedSchedule(ScheduleGroups(gs[0], gs[1]))
  {
    var p1 := SchedulePattern.next.next;
    var p2 := p1.next.next;
    assert Fits(SchedulePattern.next, gs);
    var r1 := gs[1..];
    assert Fits(p1, r1);
    assert Fits(p1.next, r1);
    assert Fits(p2, r1[1..]);
    assert Fits(p2.next, r1[1..]);
  }

  lemma ScheduleRendered(g: ScheduleGroups)
    requires WellFormedSchedule(g)
    ensures Fits(SchedulePattern, ScheduleList(g))
    ensures Spelling(SchedulePattern, ScheduleList(g)) == ScheduleText(g)
  {
    var gs := ScheduleList(g);
    var p1 := SchedulePattern.next.next;
    var p2 := p1.next.next;
    assert gs[1..] == [g.time] && gs[1..][1..] == [];
    assert Fits(p2, []);
    assert Fits(p1, [g.time]);
    assert Fits(SchedulePattern, gs);
    var x1 := " AT " + (g.time + " DAILY");
    assert Spelling(p2, []) == " DAILY";
    assert Spelling(p1, [g.time]) == x1;
    assert Spelling(SchedulePattern, gs) == "SCHEDULE WATER " + (g.zone + x1);
    var y1 := "SCHEDULE WATER " + g.zone;
    var y2 := y1 + " AT ";
    Assoc(y2, g.time, " DAILY");
    Assoc(y1, " AT ", g.time + " DAILY");
    Assoc("SCHEDULE WATER ", g.zone, x1);
  }

  /** `re.match` of the SCHEDULE pattern. */
  function MatchSchedule(line: string): (r: Option<ScheduleGroups>)
    ensures r.Some? ==> WellFormedSchedule(r.value)
  {
    var gs :- Match(SchedulePattern, line);
    ScheduleFits(gs);
    Some(ScheduleGroups(gs[0], gs[1]))
  }

  /** Whatever `MatchSchedule` returns is a SCHEDULE match that begins the line. */
  lemma MatchScheduleSound(line: string)
    requires MatchSchedule(line).Some?
    ensures ScheduleText(MatchSchedule(line).value) <= line
  {
    var v := Match(SchedulePattern, line).value;
    ScheduleFits(v);
    var g := MatchSchedule(line).value;
    assert v == ScheduleList(g);
    MatchSound(SchedulePattern, line);
    ScheduleRendered(g);
  }

  /** Every SCHEDULE match is found, whatever follows it on the line. */
  lemma MatchScheduleComplete(g: ScheduleGroups, tail: string)
    requires WellFormedSchedule(g)
    ensures MatchSchedule(ScheduleText(g) + tail) == Some(g)
  {
    ScheduleSeparated();
    ScheduleRendered(g);
    MatchComplete(SchedulePattern, ScheduleList(g), tail);
  }

  /** `MatchSchedule` is `re.match` of the SCHEDULE pattern. */
  lemma MatchScheduleIff(line: string, g: ScheduleGroups)
    ensures MatchSchedule(line) == Some(g) <==> WellFormedSchedule(g) && ScheduleText(g) <= line
  {
    if MatchSchedule(line) == Some(g) {
      MatchScheduleSound(line);
    }
    if WellFormedSchedule(g) && ScheduleText(g) <= line {
      var tail := line[|ScheduleText(g)|..];
      PrefixSplit(ScheduleText(g), line);
      MatchScheduleComplete(g, tail);
    }
  }
}

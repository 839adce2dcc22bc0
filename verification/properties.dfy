/** What the front end promises, stated about whole source lines and whole
    runs rather than about the individual steps. */
module SislProperties {
  import opened Optional
  import opened Text
  import opened Clock
  import opened Patterns
  import opened Lines
  import opened Sisl

  // ---------------------------------------------------------------------
  // dispatch

  /** No keyword is a prefix of another, so the order of the `startswith`
      tests does not matter: a line is classified by the one keyword it
      begins with. */
  lemma KeywordIsPrefix(line: string)
    ensures KeywordOf(line) == KwDeclare <==> "DECLARE" <= line
    ensures KeywordOf(line) == KwGet <==> "GET" <= line
    ensures KeywordOf(line) == KwZone <==> "ZONE" <= line
    ensures KeywordOf(line) == KwIf <==> "IF" <= line
    ensures KeywordOf(line) == KwSchedule <==> "SCHEDULE" <= line
  {
    if "DECLARE" <= line { assert line[0] == 'D'; }
    if "GET" <= line { assert line[0] == 'G'; }
    if "ZONE" <= line { assert line[0] == 'Z'; }
    if "IF" <= line { assert line[0] == 'I'; }
    if "SCHEDULE" <= line { assert line[0] == 'S'; }
  }

  lemma PrefixTransitive(a: string, b: string, c: string)
    requires a <= b && b <= c
    ensures a <= c
  {
    assert c[..|a|] == c[..|b|][..|a|];
  }

  // ---------------------------------------------------------------------
  // statements

  lemma ExecuteDeclare(st: State, sensorType: string, zone: string)
    ensures Execute(st, Declare(sensorType, zone)) == Ok(st.(sensors := st.sensors[zone := sensorType]))
  {
  }

  lemma ExecuteGet(st: State, name: string)
    ensures name in st.envVars ==> Execute(st, Get(name)) == Ok(st)
    ensures name !in st.envVars ==> Execute(st, Get(name)) == Ok(st.(envVars := st.envVars[name := None]))
  {
  }

  lemma ExecuteZone(st: State, name: string)
    ensures Execute(st, Zone(name)) == Ok(st.(zones := st.zones + {name}))
  {
  }

  lemma ExecuteConditional(st: State, t: string, z: string, threshold: nat, w: string, minutes: nat)
    ensures var sensorOk := z in st.sensors && Contains(st.sensors[z], t);
      && (!sensorOk ==> Execute(st, Conditional(t, z, threshold, w, minutes)) == Err(UndeclaredSensor(t, z)))
      && (sensorOk && w !in st.zones ==> Execute(st, Conditional(t, z, threshold, w, minutes)) == Err(UndeclaredZone(w)))
      && (sensorOk && w in st.zones && minutes == 0 ==> Execute(st, Conditional(t, z, threshold, w, minutes)) == Err(InvalidDuration))
      && (sensorOk && w in st.zones && minutes > 0 ==>
            Execute(st, Conditional(t, z, threshold, w, minutes)) == Ok(st.(code := st.code + [
              ReadSensor(t, z), IfLessThan(threshold, w), Label(w), ActivateValve(w, minutes * 60), DeactivateValve(w)])))
  {
  }

  lemma ExecuteSchedule(st: State, w: string, time: string)
    ensures w !in st.zones ==> Execute(st, Schedule(w, time)) == Err(UndeclaredZone(w))
    ensures w in st.zones && !IsValidTime(time) ==> Execute(st, Schedule(w, time)) == Err(InvalidTimeFormat(time))
    ensures w in st.zones && IsValidTime(time) ==>
      Execute(st, Schedule(w, time)) == Ok(st.(schedules := st.schedules + [(w, time)], code := st.code + [ScheduleValve(w, time)]))
  {
  }

  // ---------------------------------------------------------------------
  // DECLARE, GET, ZONE

  lemma DeclareClassified(t: string, ts: seq<string>)
    requires KeywordOf(t) == KwDeclare && Split(t) == ts
    ensures |ts| < 3 ==> Classify(t).Err?
    ensures |ts| >= 3 ==> Classify(t) == Ok(Declare(ts[1], ts[2]))
  {
  }

  lemma GetClassified(t: string, ts: seq<string>)
    requires KeywordOf(t) == KwGet && Split(t) == ts
    ensures |ts| < 2 ==> Classify(t).Err?
    ensures |ts| >= 2 ==> Classify(t) == Ok(Get(ts[1]))
  {
  }

  lemma ZoneClassified(t: string, ts: seq<string>)
    requires KeywordOf(t) == KwZone && Split(t) == ts
    ensures |ts| < 2 ==> Classify(t).Err?
    ensures |ts| >= 2 ==> Classify(t) == Ok(Zone(ts[1]))
  {
  }

  /** A DECLARE line, split into the tokens `ts`: the zone (third token) is
      mapped to the sensor type (second token), overwriting any earlier
      declaration; later tokens are ignored; with fewer than three tokens
      the line raises before anything changes. */
  lemma DeclareLine(st: State, line: string)
    requires "DECLARE" <= Strip(line)
    ensures var ts := Split(Strip(line));
      && (|ts| < 3 ==> Step(st, line) == Err(MissingOperand(Strip(line))))
      && (|ts| >= 3 ==> Step(st, line) == Ok(st.(sensors := st.sensors[ts[2] := ts[1]])))
  {
    var t := Strip(line);
    var ts := Split(t);
    KeywordIsPrefix(t);
    DeclareClassified(t, ts);
    if |ts| < 3 {
      StepOfMissing(st, line);
    } else {
      StepOf(st, line, Declare(ts[1], ts[2]));
      ExecuteDeclare(st, ts[1], ts[2]);
    }
  }

  /** A GET line: the variable (second token) is added with no value when it
      is absent; an existing entry is left as it is. */
  lemma GetLine(st: State, line: string)
    requires "GET" <= Strip(line)
    ensures var ts := Split(Strip(line));
      && (|ts| < 2 ==> Step(st, line) == Err(MissingOperand(Strip(line))))
      && (|ts| >= 2 && ts[1] in st.envVars ==> Step(st, line) == Ok(st))
      && (|ts| >= 2 && ts[1] !in st.envVars ==> Step(st, line) == Ok(st.(envVars := st.envVars[ts[1] := None])))
  {
    var t := Strip(line);
    var ts := Split(t);
    KeywordIsPrefix(t);
    GetClassified(t, ts);
    if |ts| < 2 {
      StepOfMissing(st, line);
    } else {
      StepOf(st, line, Get(ts[1]));
      ExecuteGet(st, ts[1]);
    }
  }

  /** A ZONE line: the zone (second token) joins the set of zones. */
  lemma ZoneLine(st: State, line: string)
    requires "ZONE" <= Strip(line)
    ensures var ts := Split(Strip(line));
      && (|ts| < 2 ==> Step(st, line) == Err(MissingOperand(Strip(line))))
      && (|ts| >= 2 ==> Step(st, line) == Ok(st.(zones := st.zones + {ts[1]})))
  {
    var t := Strip(line);
    var ts := Split(t);
    KeywordIsPrefix(t);
    ZoneClassified(t, ts);
    if |ts| < 2 {
      StepOfMissing(st, line);
    } else {
      StepOf(st, line, Zone(ts[1]));
      ExecuteZone(st, ts[1]);
    }
  }

  /** DECLARE is last-write-wins: after two accepted DECLARE lines for the
      same zone, the state is what the second line alone would give. */
  lemma DeclareLastWriteWins(st: State, first: string, second: string)
    requires KeywordOf(Strip(first)) == KwDeclare && KeywordOf(Strip(second)) == KwDeclare
    requires |Split(Strip(first))| >= 3 && |Split(Strip(second))| >= 3
    requires Split(Strip(first))[2] == Split(Strip(second))[2]
    ensures Step(st, first).Ok? && Step(st, second).Ok?
    ensures Step(Step(st, first).value, second) == Step(st, second)
  {
    var p1, p2 := Split(Strip(first)), Split(Strip(second));
    DeclareClassified(Strip(first), p1);
    DeclareClassified(Strip(second), p2);
    StepOf(st, first, Declare(p1[1], p1[2]));
    StepOf(st, second, Declare(p2[1], p2[2]));
    ExecuteDeclareTwice(st, p1[1], p2[1], p2[2]);
    StepOf(Execute(st, Declare(p1[1], p1[2])).value, second, Declare(p2[1], p2[2]));
  }

  lemma ExecuteDeclareTwice(st: State, first: string, second: string, zone: string)
    ensures Execute(st, Declare(first, zone)).Ok?
    ensures Execute(Execute(st, Declare(first, zone)).value, Declare(second, zone)) == Execute(st, Declare(second, zone))
  {
    assert st.sensors[zone := first][zone := second] == st.sensors[zone := second];
  }

  /** ZONE is idempotent: repeating an accepted ZONE line changes nothing. */
  lemma ZoneIdempotent(st: State, line: string)
    requires KeywordOf(Strip(line)) == KwZone && |Split(Strip(line))| >= 2
    ensures Step(st, line).Ok?
    ensures Step(Step(st, line).value, line) == Step(st, line)
  {
    var ts := Split(Strip(line));
    ZoneClassified(Strip(line), ts);
    StepOf(st, line, Zone(ts[1]));
    ExecuteZoneTwice(st, ts[1]);
    StepOf(Execute(st, Zone(ts[1])).value, line, Zone(ts[1]));
  }

  lemma ExecuteZoneTwice(st: State, name: string)
    ensures Execute(st, Zone(name)).Ok?
    ensures Execute(Execute(st, Zone(name)).value, Zone(name)) == Execute(st, Zone(name))
  {
    assert st.zones + {name} + {name} == st.zones + {name};
  }

  /** GET never overwrites: an accepted GET line keeps every existing
      variable's value, adds at most its own name, with no value, and
      repeating it changes nothing. */
  lemma GetKeepsExisting(st: State, line: string)
    requires KeywordOf(Strip(line)) == KwGet && |Split(Strip(line))| >= 2
    ensures Step(st, line).Ok?
    ensures var next := Step(st, line).value;
      var name := Split(Strip(line))[1];
      && next.envVars.Keys == st.envVars.Keys + {name}
      && (forall v :: v in st.envVars ==> next.envVars[v] == st.envVars[v])
      && (name !in st.envVars ==> next.envVars[name] == None)
      && next == st.(envVars := next.envVars)
      && Step(next, line) == Ok(next)
  {
    var ts := Split(Strip(line));
    GetClassified(Strip(line), ts);
    StepOf(st, line, Get(ts[1]));
    ExecuteGetKeeps(st, ts[1]);
    StepOf(Execute(st, Get(ts[1])).value, line, Get(ts[1]));
  }

  lemma ExecuteGetKeeps(st: State, name: string)
    ensures Execute(st, Get(name)).Ok?
    ensures var next := Execute(st, Get(name)).value;
      && next.envVars.Keys == st.envVars.Keys + {name}
      && (forall v :: v in st.envVars ==> next.envVars[v] == st.envVars[v])
      && (name !in st.envVars ==> next.envVars[name] == None)
      && next == st.(envVars := next.envVars)
      && Execute(next, Get(name)) == Ok(next)
  {
  }

  // ---------------------------------------------------------------------
  // IF

  lemma IfLineClassified(line: string, g: IfGroups, tail: string)
    requires WellFormedIf(g) && line == IfText(g) + tail
    ensures Classify(line) == Ok(Conditional(g.sensorType, g.zone, ParseNat(g.threshold), g.waterZone, ParseNat(g.duration)))
  {
    MatchIfComplete(g, tail);
    assert IfText(g) <= line;
    PrefixTransitive("IF", IfText(g), line);
    KeywordIsPrefix(line);
  }

  /** An IF line whose trimmed text begins with the pattern. The checks run
      in the source's order: the zone's declared sensor type must contain
      the captured type, then the watering zone must be declared, then the
      duration must be positive. Only then are exactly five instructions
      appended: read the sensor, branch on the threshold, the label, open
      the valve for minutes * 60 seconds, close it; nothing else changes. */
  lemma IfLine(st: State, line: string, g: IfGroups, tail: string)
    requires WellFormedIf(g) && Strip(line) == IfText(g) + tail
    ensures var minutes := ParseNat(g.duration);
      var sensorOk := g.zone in st.sensors && Contains(st.sensors[g.zone], g.sensorType);
      && (!sensorOk ==> Step(st, line) == Err(UndeclaredSensor(g.sensorType, g.zone)))
      && (sensorOk && g.waterZone !in st.zones ==> Step(st, line) == Err(UndeclaredZone(g.waterZone)))
      && (sensorOk && g.waterZone in st.zones && minutes == 0 ==> Step(st, line) == Err(InvalidDuration))
      && (sensorOk && g.waterZone in st.zones && minutes > 0 ==>
            Step(st, line) == Ok(st.(code := st.code + [
              ReadSensor(g.sensorType, g.zone),
              IfLessThan(ParseNat(g.threshold), g.waterZone),
              Label(g.waterZone),
              ActivateValve(g.waterZone, minutes * 60),
              DeactivateValve(g.waterZone)])))
  {
    var s := Conditional(g.sensorType, g.zone, ParseNat(g.threshold), g.waterZone, ParseNat(g.duration));
    IfLineClassified(Strip(line), g, tail);
    StepOf(st, line, s);
    ExecuteConditional(st, g.sensorType, g.zone, ParseNat(g.threshold), g.waterZone, ParseNat(g.duration));
  }

  // ---------------------------------------------------------------------
  // SCHEDULE

  lemma ScheduleLineClassified(line: string, g: ScheduleGroups, tail: string)
    requires WellFormedSchedule(g) && line == ScheduleText(g) + tail
    ensures Classify(line) == Ok(Schedule(g.zone, g.time))
  {
    MatchScheduleComplete(g, tail);
    assert ScheduleText(g) <= line;
    PrefixTransitive("SCHEDULE", ScheduleText(g), line);
    KeywordIsPrefix(line);
  }

  /** A SCHEDULE line whose trimmed text begins with the pattern: the zone
      must be declared, then the time must be valid; an accepted line appends
      one schedule and one instruction, both carrying the time text as
      written. */
  lemma ScheduleLine(st: State, line: string, g: ScheduleGroups, tail: string)
    requires WellFormedSchedule(g) && Strip(line) == ScheduleText(g) + tail
    ensures g.zone !in st.zones ==> Step(st, line) == Err(UndeclaredZone(g.zone))
    ensures g.zone in st.zones && !IsValidTime(g.time) ==> Step(st, line) == Err(InvalidTimeFormat(g.time))
    ensures g.zone in st.zones && IsValidTime(g.time) ==>
      Step(st, line) == Ok(st.(schedules := st.schedules + [(g.zone, g.time)],
                               code := st.code + [ScheduleValve(g.zone, g.time)]))
  {
    ScheduleLineClassified(Strip(line), g, tail);
    StepOf(st, line, Schedule(g.zone, g.time));
    ExecuteSchedule(st, g.zone, g.time);
  }

  // ---------------------------------------------------------------------
  // the text of the intermediate code

  /** Appending instructions appends their texts. */
  lemma ListingConcat(a: seq<Instr>, b: seq<Instr>)
    ensures Listing(a + b) == Listing(a) + Listing(b)
  {
    var l, r := Listing(a + b), Listing(a) + Listing(b);
    forall k | 0 <= k < |l|
      ensures l[k] == r[k]
    {
      if k < |a| {
        assert (a + b)[k] == a[k];
      } else {
        assert (a + b)[k] == b[k - |a|];
      }
    }
  }

  /** The text an accepted IF line adds to the intermediate code: exactly
      the five lines the source formats, after the earlier ones. The
      threshold is printed as the number it reads as, so a threshold
      written without leading zeros is printed as written, and the valve
      stays open for minutes * 60 seconds. */
  lemma IfLineListing(st: State, line: string, g: IfGroups, tail: string)
    requires WellFormedIf(g) && Strip(line) == IfText(g) + tail
    requires g.zone in st.sensors && Contains(st.sensors[g.zone], g.sensorType)
    requires g.waterZone in st.zones && ParseNat(g.duration) > 0
    ensures Step(st, line).Ok?
    ensures var num := NatToString(ParseNat(g.threshold));
      var w := g.waterZone;
      && Listing(Step(st, line).value.code) == Listing(st.code) + [
           "READ_SENSOR " + g.sensorType + ", " + g.zone,
           "IF_LESS_THAN RESULT, " + num + " GOTO WATER_" + w,
           "LABEL WATER_" + w,
           "ACTIVATE_VALVE " + w + ", " + NatToString(ParseNat(g.duration) * 60) + "_SECONDS",
           "DEACTIVATE_VALVE " + w]
      && ParseNat(num) == ParseNat(g.threshold)
      && (IsCanonical(g.threshold) ==> num == g.threshold)
  {
    var block := WateringBlock(g.sensorType, g.zone, ParseNat(g.threshold), g.waterZone, ParseNat(g.duration));
    assert Step(st, line) == Ok(st.(code := st.code + block)) by {
      IfLine(st, line, g, tail);
    }
    WateringListing(st.code, g);
  }

  lemma WateringListing(before: seq<Instr>, g: IfGroups)
    requires WellFormedIf(g)
    ensures var num := NatToString(ParseNat(g.threshold));
      var w := g.waterZone;
      && Listing(before + WateringBlock(g.sensorType, g.zone, ParseNat(g.threshold), w, ParseNat(g.duration))) == Listing(before) + [
           "READ_SENSOR " + g.sensorType + ", " + g.zone,
           "IF_LESS_THAN RESULT, " + num + " GOTO WATER_" + w,
           "LABEL WATER_" + w,
           "ACTIVATE_VALVE " + w + ", " + NatToString(ParseNat(g.duration) * 60) + "_SECONDS",
           "DEACTIVATE_VALVE " + w]
      && ParseNat(num) == ParseNat(g.threshold)
      && (IsCanonical(g.threshold) ==> num == g.threshold)
  {
    ListingConcat(before, WateringBlock(g.sensorType, g.zone, ParseNat(g.threshold), g.waterZone, ParseNat(g.duration)));
    ParseNatToString(ParseNat(g.threshold));
    if IsCanonical(g.threshold) {
      NatToStringParse(g.threshold);
    }
  }

  /** The text an accepted SCHEDULE line adds: one SCHEDULE_VALVE line
      carrying the zone and the time text verbatim. */
  lemma ScheduleLineListing(st: State, line: string, g: ScheduleGroups, tail: string)
    requires WellFormedSchedule(g) && Strip(line) == ScheduleText(g) + tail
    requires g.zone in st.zones && IsValidTime(g.time)
    ensures Step(st, line).Ok?
    ensures Listing(Step(st, line).value.code) == Listing(st.code) + ["SCHEDULE_VALVE " + g.zone + ", " + g.time]
  {
    assert Step(st, line) == Ok(st.(schedules := st.schedules + [(g.zone, g.time)],
                                    code := st.code + [ScheduleValve(g.zone, g.time)])) by {
      ScheduleLine(st, line, g, tail);
    }
    ScheduleListing(st.code, g.zone, g.time);
  }

  lemma ScheduleListing(before: seq<Instr>, zone: string, time: string)
    ensures Listing(before + [ScheduleValve(zone, time)]) == Listing(before) + ["SCHEDULE_VALVE " + zone + ", " + time]
  {
    ListingConcat(before, [ScheduleValve(zone, time)]);
    assert Listing([ScheduleValve(zone, time)]) == ["SCHEDULE_VALVE " + zone + ", " + time];
  }

  // ---------------------------------------------------------------------
  // lines without effect

  /** Blank lines, unknown commands and IF or SCHEDULE lines that do not
      match their pattern leave the state exactly as it was. */
  lemma InertClassified(t: string)
    requires || KeywordOf(t) == KwNone
             || (KeywordOf(t) == KwIf && MatchIf(t).None?)
             || (KeywordOf(t) == KwSchedule && MatchSchedule(t).None?)
    ensures Classify(t).Ok? && Classify(t).value in {Dropped, Blank, Unknown(t)}
  {
  }

  lemma ExecuteInert(st: State, s: Statement)
    requires s.Dropped? || s.Blank? || s.Unknown?
    ensures Execute(st, s) == Ok(st)
  {
  }

  lemma NoEffectLine(st: State, line: string)
    requires var t := Strip(line);
      || KeywordOf(t) == KwNone
      || (KeywordOf(t) == KwIf && MatchIf(t).None?)
      || (KeywordOf(t) == KwSchedule && MatchSchedule(t).None?)
    ensures Step(st, line) == Ok(st)
  {
    InertClassified(Strip(line));
    var s := Classify(Strip(line)).value;
    StepOf(st, line, s);
    ExecuteInert(st, s);
  }

  /** A rejected line changes nothing: whatever it raises, the run stops on
      it with the state the earlier lines left. */
  lemma RejectedLineStops(st: State, line: string, rest: seq<string>)
    requires Step(st, line).Err?
    ensures Run(st, [line] + rest) == Aborted(st, Step(st, line).error, 0)
  {
  }

  // ---------------------------------------------------------------------
  // runs

  /** The loop of `parse_sisl_code` for an arbitrary step function; the
      facts about runs below hold for any step, so they are proved here,
      where the step is not unfolded. */
  function Fold(step: (State, string) -> Result<State>, st: State, lines: seq<string>): (o: Outcome)
    ensures o.Aborted? ==> o.at < |lines| && step(o.state, lines[o.at]) == Err(o.error)
    decreases |lines|
  {
    if lines == [] then Finished(st)
    else
      match step(st, lines[0])
      case Err(e) => Aborted(st, e, 0)
      case Ok(next) =>
        var o := Fold(step, next, lines[1..]);
        assert o.Aborted? ==> lines[1..][o.at] == lines[o.at + 1];
        Offset(o, 1)
  }

  lemma {:induction false} RunIsFold(st: State, lines: seq<string>)
    ensures Run(st, lines) == Fold(Step, st, lines)
    decreases |lines|
  {
    if lines != [] {
      RunCons(st, lines);
      var r := Step(st, lines[0]);
      if r.Ok? {
        RunIsFold(r.value, lines[1..]);
      }
    }
  }

  lemma {:induction false} FoldConcat(step: (State, string) -> Result<State>, st: State, a: seq<string>, b: seq<string>)
    ensures Fold(step, st, a + b) == match Fold(step, st, a)
      case Finished(s) => Offset(Fold(step, s, b), |a|)
      case Aborted(_, _, _) => Fold(step, st, a)
    decreases |a|
  {
    if a == [] {
      assert a + b == b;
      match Fold(step, st, b)
      case Finished(_) =>
      case Aborted(_, _, _) =>
    } else {
      assert (a + b)[0] == a[0] && (a + b)[1..] == a[1..] + b;
      match step(st, a[0])
      case Err(_) =>
      case Ok(next) =>
        FoldConcat(step, next, a[1..], b);
    }
  }

  lemma {:induction false} FoldAbortedPrefix(step: (State, string) -> Result<State>, st: State, lines: seq<string>)
    requires Fold(step, st, lines).Aborted?
    ensures Fold(step, st, lines[..Fold(step, st, lines).at]) == Finished(Fold(step, st, lines).state)
    decreases |lines|
  {
    var o := Fold(step, st, lines);
    if o.at == 0 {
      assert lines[..0] == [];
    } else {
      var next := step(st, lines[0]).value;
      FoldAbortedPrefix(step, next, lines[1..]);
      var k := Fold(step, next, lines[1..]).at;
      assert lines[..o.at][1..] == lines[1..][..k];
      assert lines[..o.at][0] == lines[0];
    }
  }

  /** Running two pieces of a program one after the other is running the
      whole program; the second piece runs only if the first finished. */
  lemma RunConcat(st: State, a: seq<string>, b: seq<string>)
    ensures Run(st, a + b) == match Run(st, a)
      case Finished(s) => Offset(Run(s, b), |a|)
      case Aborted(_, _, _) => Run(st, a)
  {
    RunIsFold(st, a + b);
    RunIsFold(st, a);
    RunIsFold(Run(st, a).state, b);
    FoldConcat(Step, st, a, b);
  }

  /** Once a line raises, the lines after it are never looked at. */
  lemma RunStopsAtError(st: State, lines: seq<string>, more: seq<string>)
    requires Run(st, lines).Aborted?
    ensures Run(st, lines + more) == Run(st, lines)
  {
    RunConcat(st, lines, more);
  }

  /** The state an aborted run leaves is the state the lines before the
      failing one produce. */
  lemma RunAbortedPrefix(st: State, lines: seq<string>)
    requires Run(st, lines).Aborted?
    ensures Run(st, lines[..Run(st, lines).at]) == Finished(Run(st, lines).state)
  {
    RunIsFold(st, lines);
    RunIsFold(st, lines[..Run(st, lines).at]);
    FoldAbortedPrefix(Step, st, lines);
  }
}

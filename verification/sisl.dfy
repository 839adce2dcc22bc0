/** The SISL front end: the symbol table, the classification of a trimmed
    line by keyword prefix, the semantic checks and the generated
    intermediate code, threaded through the lines of a program as an
    explicit state instead of module-level globals. */
module Sisl {
  import opened Optional
  import opened Text
  import opened Clock
  import opened Patterns
  import opened Lines

  // ---------------------------------------------------------------------
  // data model

  /** One generated instruction; `Render` gives its text. */
  datatype Instr =
    | ReadSensor(sensorType: string, zone: string)
    | IfLessThan(threshold: nat, target: string)
    | Label(target: string)
    | ActivateValve(zone: string, seconds: nat)
    | DeactivateValve(zone: string)
    | ScheduleValve(zone: string, time: string)

  /** The line appended to the intermediate code for `i`. */
  function Render(i: Instr): string {
    match i
    case ReadSensor(t, z) => "READ_SENSOR " + t + ", " + z
    case IfLessThan(n, w) => "IF_LESS_THAN RESULT, " + NatToString(n) + " GOTO WATER_" + w
    case Label(w) => "LABEL WATER_" + w
    case ActivateValve(w, s) => "ACTIVATE_VALVE " + w + ", " + NatToString(s) + "_SECONDS"
    case DeactivateValve(w) => "DEACTIVATE_VALVE " + w
    case ScheduleValve(w, t) => "SCHEDULE_VALVE " + w + ", " + t
  }

  /** The symbol table together with the intermediate code. */
  datatype State = State(
    sensors: map<string, string>,          // zone -> declared sensor type
    zones: set<string>,                    // declared irrigation zones
    envVars: map<string, Option<string>>,  // environment variables; values stay unresolved
    schedules: seq<(string, string)>,      // accepted (zone, time) pairs, in order
    code: seq<Instr>)                      // the intermediate code, in order

  /** The state the globals hold when the program is loaded. */
  function Initial(): State {
    State(map[], {}, map["RAINFALL_FORECAST" := None], [], [])
  }

  /** The text of the intermediate code. */
  function Listing(code: seq<Instr>): (r: seq<string>)
    ensures |r| == |code|
    ensures forall k :: 0 <= k < |code| ==> r[k] == Render(code[k])
  {
    seq(|code|, k requires 0 <= k < |code| => Render(code[k]))
  }

  // ---------------------------------------------------------------------
  // semantic checks and code generation

  /** The five instructions an accepted IF line appends. */
  function WateringBlock(sensorType: string, zone: string, threshold: nat, waterZone: string, minutes: nat): seq<Instr> {
    [ ReadSensor(sensorType, zone),
      IfLessThan(threshold, waterZone),
      Label(waterZone),
      ActivateValve(waterZone, minutes * 60),
      DeactivateValve(waterZone) ]
  }

  /** The symbol table only grows, an environment variable keeps its value,
      and the schedules and the code are extended at the end. */
  predicate Extends(a: State, b: State) {
    && a.sensors.Keys <= b.sensors.Keys
    && a.zones <= b.zones
    && (forall v :: v in a.envVars ==> v in b.envVars && b.envVars[v] == a.envVars[v])
    && a.schedules <= b.schedules
    && a.code <= b.code
  }

  lemma ExtendsTransitive(a: State, b: State, c: State)
    requires Extends(a, b) && Extends(b, c)
    ensures Extends(a, c)
  {
  }

  /** How many instructions a statement emits when it is accepted. */
  function Emitted(s: Statement): nat {
    if s.Conditional? then 5 else if s.Schedule? then 1 else 0
  }

  /** Applies one statement. Numerals are unbounded here, and every check
      comes before every update, so a rejected statement changes nothing. */
  function Execute(st: State, s: Statement): (r: Result<State>)
    ensures r.Ok? ==> Extends(st, r.value)
    ensures r.Ok? ==> |r.value.code| == |st.code| + Emitted(s)
    ensures r.Ok? ==> |r.value.schedules| == |st.schedules| + (if s.Schedule? then 1 else 0)
    ensures r.Err? ==> s.Conditional? || s.Schedule?
  {
    match s
    case Declare(t, z) => Ok(st.(sensors := st.sensors[z := t]))
    case Get(v) => if v in st.envVars then Ok(st) else Ok(st.(envVars := st.envVars[v := None]))
    case Zone(z) => Ok(st.(zones := st.zones + {z}))
    case Conditional(t, z, threshold, w, minutes) =>
      if z !in st.sensors || !Contains(st.sensors[z], t) then Err(UndeclaredSensor(t, z))
      else if w !in st.zones then Err(UndeclaredZone(w))
      else if minutes == 0 then Err(InvalidDuration)   // `duration <= 0`; `\d+` gives no negatives
      else Ok(st.(code := st.code + WateringBlock(t, z, threshold, w, minutes)))
    case Schedule(w, time) =>
      if w !in st.zones then Err(UndeclaredZone(w))
      else if !IsValidTime(time) then Err(InvalidTimeFormat(time))
      else Ok(st.(schedules := st.schedules + [(w, time)], code := st.code + [ScheduleValve(w, time)]))
    case Dropped => Ok(st)
    case Blank => Ok(st)
    case Unknown(_) => Ok(st)
  }

  /** One iteration of the loop: trim, classify, check, update. */
  function Step(st: State, line: string): (r: Result<State>)
    ensures r.Ok? ==> Extends(st, r.value)
  {
    match Classify(Strip(line))
    case Err(e) => Err(e)
    case Ok(s) => Execute(st, s)
  }

  /** A line acts through the statement it is classified as. */
  lemma StepOf(st: State, line: string, s: Statement)
    requires Classify(Strip(line)) == Ok(s)
    ensures Step(st, line) == Execute(st, s)
  {
  }

  /** A line whose fields cannot be extracted raises before any check. */
  lemma StepOfMissing(st: State, line: string)
    requires Classify(Strip(line)).Err?
    ensures Step(st, line) == Err(MissingOperand(Strip(line)))
  {
  }

  // ---------------------------------------------------------------------
  // the whole program

  /** A run either consumes every line or stops at the first exception; in
      both cases the state is what the globals hold afterwards. */
  datatype Outcome =
    | Finished(state: State)
    | Aborted(state: State, error: Error, at: nat)

  function Offset(o: Outcome, n: nat): Outcome {
    match o
    case Finished(_) => o
    case Aborted(s, e, k) => Aborted(s, e, k + n)
  }

  lemma OffsetTwice(o: Outcome, a: nat, b: nat)
    ensures Offset(Offset(o, a), b) == Offset(o, a + b)
  {
  }

  /** `parse_sisl_code` as a fold over the lines. An exception stops the
      loop and leaves the state as the earlier lines made it. */
  function Run(st: State, lines: seq<string>): (o: Outcome)
    ensures Extends(st, o.state)
    ensures o.Aborted? ==> o.at < |lines| && Step(o.state, lines[o.at]) == Err(o.error)
    decreases |lines|
  {
    if lines == [] then Finished(st)
    else
      match Step(st, lines[0])
      case Err(e) => Aborted(st, e, 0)
      case Ok(next) =>
        var o := Run(next, lines[1..]);
        ExtendsTransitive(st, next, o.state);
        assert o.Aborted? ==> lines[1..][o.at] == lines[o.at + 1];
        Offset(o, 1)
  }

  /** One turn of the fold. */
  lemma RunCons(st: State, lines: seq<string>)
    requires lines != []
    ensures var r := Step(st, lines[0]);
      Run(st, lines) == if r.Err? then Aborted(st, r.error, 0) else Offset(Run(r.value, lines[1..]), 1)
  {
  }

  /** The run from line `i` on, one line at a time. */
  lemma RunFrom(st: State, lines: seq<string>, i: nat)
    requires i < |lines|
    ensures var r := Step(st, lines[i]);
      Run(st, lines[i..]) == if r.Err? then Aborted(st, r.error, 0) else Offset(Run(r.value, lines[i + 1..]), 1)
  {
    RunCons(st, lines[i..]);
    assert lines[i..][0] == lines[i] && lines[i..][1..] == lines[i + 1..];
  }

  /** One iteration of the loop below keeps its invariant. */
  lemma RunAdvance(st0: State, st: State, lines: seq<string>, i: nat)
    requires i < |lines| && Run(st0, lines) == Offset(Run(st, lines[i..]), i)
    ensures Step(st, lines[i]).Err? ==> Run(st0, lines) == Aborted(st, Step(st, lines[i]).error, i)
    ensures Step(st, lines[i]).Ok? ==> Run(st0, lines) == Offset(Run(Step(st, lines[i]).value, lines[i + 1..]), i + 1)
  {
    RunFrom(st, lines, i);
    var r := Step(st, lines[i]);
    if r.Ok? {
      OffsetTwice(Run(r.value, lines[i + 1..]), 1, i);
    }
  }

  /** `parse_sisl_code` as the source writes it: a loop over the lines that
      leaves at the first exception. */
  method ParseSislCode(st0: State, lines: seq<string>) returns (o: Outcome)
    ensures o == Run(st0, lines)
  {
    var st := st0;
    var i := 0;
    while i < |lines|
      invariant 0 <= i <= |lines|
      invariant Run(st0, lines) == Offset(Run(st, lines[i..]), i)
    {
      var r := Step(st, lines[i]);
      RunAdvance(st0, st, lines, i);
      if r.Err? {
        return Aborted(st, r.error, i);
      }
      st := r.value;
      i := i + 1;
    }
    assert lines[i..] == [];
    o := Finished(st);
  }
}

/** Classification of one trimmed source line: the keyword it begins with
    and the fields extracted from it, or the `IndexError` a DECLARE, GET or
    ZONE line with too few tokens raises. */
module Lines {
  import opened Text
  import opened Patterns

  /** The exceptions the front end raises. */
  datatype Error =
    | MissingOperand(line: string)                     // IndexError: too few tokens
    | UndeclaredSensor(sensorType: string, zone: string)
    | UndeclaredZone(zone: string)
    | InvalidDuration
    | InvalidTimeFormat(time: string)

  datatype Result<T> = Ok(value: T) | Err(error: Error)

  // ---------------------------------------------------------------------
  // classification

  datatype Keyword = KwDeclare | KwGet | KwZone | KwIf | KwSchedule | KwNone

  /** Dispatch on `startswith`, in the order the source tests the keywords. */
  function KeywordOf(line: string): Keyword {
    if "DECLARE" <= line then KwDeclare
    else if "GET" <= line then KwGet
    else if "ZONE" <= line then KwZone
    else if "IF" <= line then KwIf
    else if "SCHEDULE" <= line then KwSchedule
    else KwNone
  }

  /** A classified line with its fields extracted. */
  datatype Statement =
    | Declare(sensorType: string, zone: string)
    | Get(name: string)
    | Zone(name: string)
    | Conditional(sensorType: string, zone: string, threshold: nat, waterZone: string, duration: nat)
    | Schedule(zone: string, time: string)
    | Dropped          // IF or SCHEDULE prefix, but the pattern does not match
    | Blank
    | Unknown(text: string)

  /** Which statements a keyword can give rise to. */
  predicate Agrees(k: Keyword, s: Statement) {
    match k
    case KwDeclare => s.Declare?
    case KwGet => s.Get?
    case KwZone => s.Zone?
    case KwIf => s.Conditional? || s.Dropped?
    case KwSchedule => s.Schedule? || s.Dropped?
    case KwNone => s.Blank? || s.Unknown?
  }

  /** An IF line: the five groups of the pattern, the two numerals read
      as integers, or nothing when the pattern does not match. */
  function ClassifyIf(line: string): (s: Statement)
    ensures s.Conditional? || s.Dropped?
    ensures s.Dropped? <==> MatchIf(line).None?
  {
    match MatchIf(line)
    case None => Dropped
    case Some(g) =>
      Conditional(g.sensorType, g.zone, ParseNat(g.threshold), g.waterZone, ParseNat(g.duration))
  }

  /** A SCHEDULE line: the zone and the time text, or nothing when the
      pattern does not match. */
  function ClassifySchedule(line: string): (s: Statement)
    ensures s.Schedule? || s.Dropped?
    ensures s.Dropped? <==> MatchSchedule(line).None?
  {
    match MatchSchedule(line)
    case None => Dropped
    case Some(g) => Schedule(g.zone, g.time)
  }

  /** Field extraction for one trimmed line. DECLARE, GET and ZONE take the
      whitespace-separated tokens after the keyword and fail when they are
      missing; IF and SCHEDULE use their patterns and drop a line that does
      not match. */
  function Classify(line: string): (r: Result<Statement>)
    ensures r.Ok? ==> Agrees(KeywordOf(line), r.value)
    ensures r.Err? ==> r.error == MissingOperand(line) && KeywordOf(line) in {KwDeclare, KwGet, KwZone}
  {
    match KeywordOf(line)
    case KwDeclare =>
      var parts := Split(line);
      if |parts| < 3 then Err(MissingOperand(line)) else Ok(Declare(parts[1], parts[2]))
    case KwGet =>
      var parts := Split(line);
      if |parts| < 2 then Err(MissingOperand(line)) else Ok(Get(parts[1]))
    case KwZone =>
      var parts := Split(line);
      if |parts| < 2 then Err(MissingOperand(line)) else Ok(Zone(parts[1]))
    case KwIf => Ok(ClassifyIf(line))
    case KwSchedule => Ok(ClassifySchedule(line))
    case KwNone =>
      if line == [] then Ok(Blank) else Ok(Unknown(line))
  }

  /** Only the empty line is blank. */
  lemma ClassifyBlank(line: string)
    ensures Classify(line) == Ok(Blank) <==> line == []
  {
    if line == [] {
      assert KeywordOf(line) == KwNone;
    } else if KeywordOf(line) == KwNone {
      assert Classify(line) == Ok(Unknown(line));
    }
  }
}

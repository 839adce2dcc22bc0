/** Worked values: the sample program's SCHEDULE time, an hour of 13 the
    SCHEDULE pattern admits, and the sample program's GET line run on the
    state the program is loaded with. */
module SislExamples {
  import opened Text
  import opened Clock
  import opened Lines
  import opened Sisl
  import opened SislProperties

  /** `06:00 AM` is valid; `13:00 AM` has the SCHEDULE time shape, but `%I`
      refuses an hour of 13. */
  lemma ExampleTimes()
    ensures IsValidTime("06:00 AM")
    ensures !IsValidTime("13:00 AM")
  {
    ShapedTimeValid("06:00 AM");
    ShapedTimeValid("13:00 AM");
  }

  /** RAINFALL_FORECAST is an environment variable from the start, so a
      line that fetches it, such as `GET RAINFALL_FORECAST`, changes
      nothing. */
  lemma InitialGet(line: string)
    requires "GET" <= Strip(line)
    requires var ts := Split(Strip(line)); |ts| >= 2 && ts[1] == "RAINFALL_FORECAST"
    ensures Step(Initial(), line) == Ok(Initial())
  {
    GetLine(Initial(), line);
  }
}

/** Generated schedules as the engine publishes them, with participants named by their ids. */
module ScheduleTypes {
  import opened Wrappers

  type Pid = string

  /** How an id string is read as a UUID; None for a string that is not one. */
  type UuidParse = string -> Option<int>

  datatype SchedulePair = SchedulePair(pidA: Pid, pidB: Pid, score: real)

  datatype ScheduleRound = ScheduleRound(number: int, pairs: seq<SchedulePair>, unmatched: Option<Pid>)

  type Schedule = seq<ScheduleRound>

  predicate Parses(parse: UuidParse, x: Pid) {
    parse(x).Some?
  }

  predicate Below(parse: UuidParse, x: Pid, y: Pid) {
    Parses(parse, x) && Parses(parse, y) && parse(x).value < parse(y).value
  }

  /** The two ids with the smaller UUID first; None if one of them cannot be read. */
  function CanonKey(parse: UuidParse, x: Pid, y: Pid): Option<(Pid, Pid)> {
    if !Parses(parse, x) || !Parses(parse, y) then None
    else if Below(parse, x, y) then Some((x, y)) else Some((y, x))
  }
}

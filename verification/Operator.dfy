/**
 The live actions of an operator on a running timetable: pause, resume and extend.
 */
module Operator {
  import opened Wrappers
  import opened Timetable

  const SECOND: int := 1_000_000
  const LEAD: nat := 20_000_000

  /** Successful actions, in the order they were logged. */
  datatype Entry =
    | Paused(round: nat, at: int)
    | Resumed(round: nat, at: int, shift: int)
    | Extended(round: nat, shift: int)

  datatype Refusal = NotLeader | NotInRound | AlreadyPaused | NotPaused | RoundMissing | NotPositive

  /** The timetable and the action log of an event. */
  datatype Desk = Desk(rows: seq<Row>, log: seq<Entry>)

  // ----- shifting a timetable

  /** Round n ends later by d and everything after it moves by d. */
  function ShiftFrom(rows: seq<Row>, n: nat, d: int): (r: seq<Row>)
    ensures |r| == |rows|
  {
    seq(|rows|, i requires 0 <= i < |rows| =>
      if rows[i].number < n then rows[i]
      else rows[i].(startsAt := rows[i].startsAt + (if rows[i].number > n then d else 0), endsAt := rows[i].endsAt + d))
  }

  lemma ShiftKeepsOrder(rows: seq<Row>, n: nat, d: nat)
    requires Ordered(rows) && Contiguous(rows)
    ensures Ordered(ShiftFrom(rows, n, d)) && Contiguous(ShiftFrom(rows, n, d))
  {
  }

  /** The state in which a pause was logged last: that round was running at that moment. */
  ghost predicate PauseHolds(d: Desk) {
    d.log != [] && d.log[|d.log| - 1].Paused? ==>
      var last := d.log[|d.log| - 1];
      var r := PhaseAt(d.rows, LEAD, last.at);
      r.phase == InRound && r.round.value.number == last.round
  }

  ghost predicate Inv(d: Desk) {
    Ordered(d.rows) && Contiguous(d.rows) && PauseHolds(d)
  }

  // ----- the actions

  datatype Act = Pause(now: int) | Resume(now: int) | Extend(now: int, seconds: int)

  predicate PausedNow(d: Desk) {
    d.log != [] && d.log[|d.log| - 1].Paused?
  }

  /** The running round at a moment. */
  function Running(d: Desk, now: int): (n: Option<Row>)
    ensures n.Some? ==> n.value in d.rows
  {
    var r := PhaseAt(d.rows, LEAD, now);
    if r.phase == InRound then r.round else None
  }

  function ResumeShift(now: int, pausedAt: int): int {
    if now - pausedAt > SECOND then now - pausedAt else SECOND
  }

  /** The new state, or why the action is refused. */
  function Try(d: Desk, act: Act): Result<Desk, Refusal> {
    match act
    case Pause(now) =>
      var run := Running(d, now);
      if run.None? then Failure(NotInRound)
      else if PausedNow(d) then Failure(AlreadyPaused)
      else Success(d.(log := d.log + [Paused(run.value.number, now)]))
    case Resume(now) =>
      if !PausedNow(d) then Failure(NotPaused)
      else
        var last := d.log[|d.log| - 1];
        if FindNumber(d.rows, last.round).None? then Failure(RoundMissing)
        else
          var shift := ResumeShift(now, last.at);
          Success(Desk(ShiftFrom(d.rows, last.round, shift), d.log + [Resumed(last.round, now, shift)]))
    case Extend(now, seconds) =>
      var run := Running(d, now);
      if seconds <= 0 then Failure(NotPositive)
      else if run.None? then Failure(NotInRound)
      else
        var shift := seconds * SECOND;
        Success(Desk(ShiftFrom(d.rows, run.value.number, shift), d.log + [Extended(run.value.number, shift)]))
  }

  /** A refused action changes nothing. */
  function Apply(d: Desk, act: Act): Desk {
    var r := Try(d, act);
    if r.Success? then r.value else d
  }

  function ApplyAll(d: Desk, acts: seq<Act>): Desk {
    if acts == [] then d else Apply(ApplyAll(d, acts[..|acts| - 1]), acts[|acts| - 1])
  }

  // ----- the service

  class OperatorService {
    const isLeader: bool
    var rows: seq<Row>
    var log: seq<Entry>

    constructor (rows: seq<Row>, isLeader: bool)
      requires Ordered(rows) && Contiguous(rows)
      ensures this.rows == rows && this.isLeader == isLeader && log == [] && Valid()
    {
      this.rows := rows;
      this.isLeader := isLeader;
      this.log := [];
    }

    function State(): Desk
      reads this
    {
      Desk(rows, log)
    }

    ghost predicate Valid()
      reads this
    {
      Inv(State())
    }

    /** Adds the shift to the end of round n and to both ends of every later round. */
    method Shift(n: nat, d: int)
      modifies this`rows
      ensures rows == ShiftFrom(old(rows), n, d)
    {
      var was := rows;
      for i := 0 to |was|
        invariant |rows| == |was|
        invariant forall j :: 0 <= j < i ==> rows[j] == ShiftFrom(was, n, d)[j]
        invariant forall j :: i <= j < |was| ==> rows[j] == was[j]
      {
        if was[i].number == n {
          rows := rows[i := was[i].(endsAt := was[i].endsAt + d)];
        } else if was[i].number > n {
          rows := rows[i := was[i].(startsAt := was[i].startsAt + d, endsAt := was[i].endsAt + d)];
        }
      }
    }

    /** The outcome of an action for its caller: only the leader acts, and as `Try` says. */
    twostate predicate Did(act: Act, refused: Option<Refusal>)
      reads this
    {
      if !isLeader then refused == Some(NotLeader) && State() == old(State())
      else
        var t := Try(old(State()), act);
        && State() == Apply(old(State()), act)
        && refused == if t.Success? then None else Some(t.error)
    }

    method PauseRound(now: int) returns (r: Result<int, Refusal>)
      requires Valid()
      modifies this`log
      ensures Valid() && Did(Pause(now), Refused(r))
      ensures rows == old(rows) && PauseAnswer(isLeader, old(rows), old(log), now, r, log)
      ensures r.Success? ==> r.value == (Running(old(State()), now).value.endsAt - now) / SECOND
    {
      hide Inv, Ordered, Contiguous, PhaseAt, FirstMatch, Running, ShiftFrom, FindNumber, ShiftedFrom;
      if !isLeader {
        return Failure(NotLeader);
      }
      var reading := GetCurrentPhase(rows, LEAD, now);
      ReadingOf(State(), now);
      StepKeepsInv(State(), Pause(now));
      PauseIs(State(), now);
      if reading.phase != InRound || reading.round.None? {
        return Failure(NotInRound);
      }
      if log != [] && log[|log| - 1].Paused? {
        return Failure(AlreadyPaused);
      }
      log := log + [Paused(reading.round.value.number, now)];
      return Success(reading.remaining.value / SECOND);
    }

    method ResumeRound(now: int) returns (r: Result<int, Refusal>)
      requires Valid()
      modifies this`log, this`rows
      ensures Valid() && Did(Resume(now), Refused(r))
      ensures ResumeAnswer(isLeader, old(rows), old(log), now, r, rows, log)
      ensures r.Success? ==>
                var last := old(log)[|old(log)| - 1];
                var end := FindNumber(old(rows), last.round).value.endsAt + ResumeShift(now, last.at);
                r.value == (if end < now then 0 else (end - now) / SECOND)
    {
      hide Inv, Ordered, Contiguous, PhaseAt, FirstMatch, Running, ShiftFrom, FindNumber, ShiftedFrom;
      if !isLeader {
        return Failure(NotLeader);
      }
      StepKeepsInv(State(), Resume(now));
      ResumeIs(State(), now);
      if log == [] || !log[|log| - 1].Paused? {
        return Failure(NotPaused);
      }
      var last := log[|log| - 1];
      var target := NextRow(rows, last.round);
      if target.None? {
        return Failure(RoundMissing);
      }
      var timeShift := if now - last.at > SECOND then now - last.at else SECOND;
      Shift(last.round, timeShift);
      log := log + [Resumed(last.round, now, timeShift)];
      var left := target.value.endsAt + timeShift - now;
      return Success(if left < 0 then 0 else left / SECOND);
    }

    method ExtendRound(now: int, extraSeconds: int) returns (r: Result<(), Refusal>)
      requires Valid()
      modifies this`log, this`rows
      ensures Valid() && Did(Extend(now, extraSeconds), Refused(r))
      ensures ExtendAnswer(isLeader, old(rows), old(log), now, extraSeconds, r, rows, log)
    {
      hide Inv, Ordered, Contiguous, PhaseAt, FirstMatch, Running, ShiftFrom, FindNumber, ShiftedFrom;
      if !isLeader {
        return Failure(NotLeader);
      }
      StepKeepsInv(State(), Extend(now, extraSeconds));
      ExtendIs(State(), now, extraSeconds);
      if extraSeconds <= 0 {
        return Failure(NotPositive);
      }
      var reading := GetCurrentPhase(rows, LEAD, now);
      ReadingOf(State(), now);
      if reading.phase != InRound || reading.round.None? {
        return Failure(NotInRound);
      }
      var extension := extraSeconds * SECOND;
      Shift(reading.round.value.number, extension);
      log := log + [Extended(reading.round.value.number, extension)];
      return Success(());
    }
  }

  function Refused<T>(r: Result<T, Refusal>): Option<Refusal> {
    if r.Success? then None else Some(r.error)
  }

  lemma ReadingOf(d: Desk, now: int)
    requires Inv(d)
    ensures Ordered(d.rows) && Contiguous(d.rows)
    ensures var r := PhaseAt(d.rows, LEAD, now); var run := Running(d, now);
            && (r.phase == InRound <==> run.Some?)
            && (run.Some? ==> r.round == run && r.remaining == Some(run.value.endsAt - now))
  {
  }

  // ----- what the actions come to, told from the timetable and the log

  /** Round n is the one that runs. */
  ghost predicate RunsNow(rows: seq<Row>, now: int, n: nat) {
    exists k :: 0 <= k < |rows| && rows[k].number == n && rows[k].startsAt <= now < rows[k].endsAt
  }

  ghost predicate SomeRoundRuns(rows: seq<Row>, now: int) {
    exists n :: RunsNow(rows, now, n)
  }

  /** The event is paused: the last thing that was done is a pause, and of this round. */
  predicate LastIsPause(log: seq<Entry>) {
    log != [] && log[|log| - 1].Paused?
  }

  /** Round n ends later by d, later rounds move by d, earlier ones stay. */
  ghost predicate ShiftedFrom(rows: seq<Row>, n: nat, d: int, after: seq<Row>) {
    |after| == |rows| && forall i :: 0 <= i < |rows| ==>
      && after[i].number == rows[i].number
      && after[i].startsAt == (if rows[i].number > n then rows[i].startsAt + d else rows[i].startsAt)
      && after[i].endsAt == (if rows[i].number >= n then rows[i].endsAt + d else rows[i].endsAt)
  }

  /** A pause: by the leader, while a round runs, and not on top of a pause; it is logged and nothing else. */
  ghost predicate PauseAnswer(leader: bool, rows: seq<Row>, log: seq<Entry>, now: int, r: Result<int, Refusal>, after: seq<Entry>) {
    && (r.Success? <==> leader && SomeRoundRuns(rows, now) && !LastIsPause(log))
    && (r.Success? ==> exists n :: RunsNow(rows, now, n) && after == log + [Paused(n, now)])
    && (r.Failure? ==> after == log)
    && (r.Failure? ==>
          r.error == (if !leader then NotLeader else if !SomeRoundRuns(rows, now) then NotInRound else AlreadyPaused))
  }

  /** A resume: by the leader and right after a pause; the round gets the length of the pause, at least a second. */
  ghost predicate ResumeAnswer(leader: bool, rows: seq<Row>, log: seq<Entry>, now: int, r: Result<int, Refusal>,
                               after: seq<Row>, logAfter: seq<Entry>) {
    && (r.Success? <==> leader && LastIsPause(log))
    && (r.Success? ==>
          var last := log[|log| - 1];
          var d := if now - last.at < SECOND then SECOND else now - last.at;
          logAfter == log + [Resumed(last.round, now, d)] && ShiftedFrom(rows, last.round, d, after))
    && (r.Failure? ==> after == rows && logAfter == log)
    && (r.Failure? ==> r.error == (if !leader then NotLeader else NotPaused))
  }

  /** An extension: by the leader, for a positive time, while a round runs; the round gets that time. */
  ghost predicate ExtendAnswer(leader: bool, rows: seq<Row>, log: seq<Entry>, now: int, seconds: int, r: Result<(), Refusal>,
                               after: seq<Row>, logAfter: seq<Entry>) {
    && (r.Success? <==> leader && seconds > 0 && SomeRoundRuns(rows, now))
    && (r.Success? ==> exists n :: RunsNow(rows, now, n) && logAfter == log + [Extended(n, seconds * SECOND)]
                                   && ShiftedFrom(rows, n, seconds * SECOND, after))
    && (r.Failure? ==> after == rows && logAfter == log)
    && (r.Failure? ==>
          r.error == (if !leader then NotLeader else if seconds <= 0 then NotPositive else NotInRound))
  }

  lemma RunningIs(d: Desk, now: int)
    requires Inv(d)
    ensures var run := Running(d, now);
            && (run.Some? <==> SomeRoundRuns(d.rows, now))
            && (run.Some? ==> RunsNow(d.rows, now, run.value.number))
  {
    if Running(d, now).Some? {
      RunningRuns(d, now);
    }
    if SomeRoundRuns(d.rows, now) {
      var n :| RunsNow(d.rows, now, n);
      RunsIsRunning(d, now, n);
    }
  }

  lemma RunningRuns(d: Desk, now: int)
    requires Inv(d) && Running(d, now).Some?
    ensures RunsNow(d.rows, now, Running(d, now).value.number)
  {
    var k := Ended(d.rows, now);
    EndedIsPrefix(d.rows, now);
    assert k < |d.rows| && d.rows[k] == Running(d, now).value && d.rows[k].startsAt <= now;
    assert d.rows[k].startsAt <= now < d.rows[k].endsAt;
  }

  lemma RunsIsRunning(d: Desk, now: int, n: nat)
    requires Inv(d) && RunsNow(d.rows, now, n)
    ensures Running(d, now).Some? && Running(d, now).value.number == n
  {
    var k :| 0 <= k < |d.rows| && d.rows[k].number == n && d.rows[k].startsAt <= now < d.rows[k].endsAt;
    FirstOpenAt(d.rows, now, k);
  }

  lemma FirstOpenAt(rows: seq<Row>, now: int, k: nat)
    requires Ordered(rows) && k < |rows| && rows[k].startsAt <= now < rows[k].endsAt
    ensures Ended(rows, now) == k
  {
    if k > 0 {
      assert rows[k - 1].endsAt <= rows[k].startsAt;
    }
    FirstOpenRound(rows, now, k);
  }

  lemma ShiftIs(rows: seq<Row>, n: nat, d: int)
    ensures ShiftedFrom(rows, n, d, ShiftFrom(rows, n, d))
  {
  }

  lemma PauseIs(d: Desk, now: int)
    requires Inv(d)
    ensures var t := Try(d, Pause(now));
            && (t.Success? <==> SomeRoundRuns(d.rows, now) && !LastIsPause(d.log))
            && (t.Success? ==> exists n :: RunsNow(d.rows, now, n) && t.value == d.(log := d.log + [Paused(n, now)]))
            && (t.Failure? ==> t.error == (if !SomeRoundRuns(d.rows, now) then NotInRound else AlreadyPaused))
  {
    hide Inv, Running, RunsNow, SomeRoundRuns;
    RunningIs(d, now);
  }

  lemma ResumeIs(d: Desk, now: int)
    requires Inv(d)
    ensures var t := Try(d, Resume(now));
            && (t.Success? <==> LastIsPause(d.log))
            && (t.Success? ==>
                  var last := d.log[|d.log| - 1];
                  var s := if now - last.at < SECOND then SECOND else now - last.at;
                  t.value.log == d.log + [Resumed(last.round, now, s)] && ShiftedFrom(d.rows, last.round, s, t.value.rows))
            && (t.Failure? ==> t.error == NotPaused)
  {
    if LastIsPause(d.log) {
      var last := d.log[|d.log| - 1];
      PausedRoundExists(d);
      ShiftIs(d.rows, last.round, ResumeShift(now, last.at));
    }
    hide Inv, ShiftedFrom, ShiftFrom, FindNumber;
  }

  lemma PausedRoundExists(d: Desk)
    requires Inv(d) && LastIsPause(d.log)
    ensures FindNumber(d.rows, d.log[|d.log| - 1].round).Some?
  {
    var last := d.log[|d.log| - 1];
    InRoundIsEnded(d.rows, last.at);
    FindNumberFinds(d.rows, last.round);
  }

  lemma ExtendIs(d: Desk, now: int, seconds: int)
    requires Inv(d)
    ensures var t := Try(d, Extend(now, seconds));
            && (t.Success? <==> seconds > 0 && SomeRoundRuns(d.rows, now))
            && (t.Success? ==> exists n :: RunsNow(d.rows, now, n) && t.value.log == d.log + [Extended(n, seconds * SECOND)]
                                           && ShiftedFrom(d.rows, n, seconds * SECOND, t.value.rows))
            && (t.Failure? ==> t.error == (if seconds <= 0 then NotPositive else NotInRound))
  {
    hide Inv, Running, RunsNow, SomeRoundRuns, ShiftedFrom, ShiftFrom;
    RunningIs(d, now);
    if Running(d, now).Some? {
      ShiftIs(d.rows, Running(d, now).value.number, seconds * SECOND);
    }
  }

  ghost predicate NoDoublePause(log: seq<Entry>) {
    forall i, j :: 0 <= i && j == i + 1 && j < |log| ==> !(log[i].Paused? && log[j].Paused?)
  }

  /** In no run that begins with an empty log do two pauses follow each other. */
  lemma {:induction false} PausesNeverFollowEachOther(d: Desk, acts: seq<Act>)
    requires Inv(d) && d.log == []
    ensures NoDoublePause(ApplyAll(d, acts).log)
  {
    hide Inv, Try;
    if acts != [] {
      var before := acts[..|acts| - 1];
      PausesNeverFollowEachOther(d, before);
      EveryRunKeepsTheTable(d, before);
      PauseStepKeeps(ApplyAll(d, before), acts[|acts| - 1]);
    }
  }

  lemma PauseStepKeeps(d: Desk, act: Act)
    requires Inv(d) && NoDoublePause(d.log)
    ensures NoDoublePause(Apply(d, act).log)
  {
    hide Inv, Running, ShiftFrom, FindNumber;
    if act.Pause? {
      PauseIs(d, act.now);
    }
  }

  // ----- what every action keeps

  lemma StepKeepsInv(d: Desk, act: Act)
    requires Inv(d)
    ensures Inv(Apply(d, act))
  {
    var r := Try(d, act);
    if r.Success? {
      match act
      case Pause(now) =>
      case Resume(now) =>
        ShiftKeepsOrder(d.rows, d.log[|d.log| - 1].round, ResumeShift(now, d.log[|d.log| - 1].at));
      case Extend(now, seconds) =>
        ShiftKeepsOrder(d.rows, Running(d, now).value.number, seconds * SECOND);
    }
  }

  function ShiftOf(e: Entry): int {
    if e.Paused? then 0 else e.shift
  }

  /** Time added to one round, and to the whole event, by the logged actions. */
  function AddedTo(log: seq<Entry>, n: nat): int {
    if log == [] then 0
    else AddedTo(log[..|log| - 1], n) + (if log[|log| - 1].round == n then ShiftOf(log[|log| - 1]) else 0)
  }

  function AddedInAll(log: seq<Entry>): int {
    if log == [] then 0 else AddedInAll(log[..|log| - 1]) + ShiftOf(log[|log| - 1])
  }

  /**
   How a state follows from an earlier one: the same rounds, the first one starting when it did,
   the same gaps, every duration changed by exactly the time its own log entries added.
   */
  ghost predicate GrownFrom(rows: seq<Row>, log: seq<Entry>, d: Desk) {
    && |d.rows| == |rows|
    && (forall i :: 0 <= i < |rows| ==> d.rows[i].number == rows[i].number)
    && (rows != [] ==> d.rows[0].startsAt == rows[0].startsAt)
    && (forall i, j :: 0 <= i && j == i + 1 && j < |rows| ==>
          d.rows[j].startsAt - d.rows[i].endsAt == rows[j].startsAt - rows[i].endsAt)
    && (forall i :: 0 <= i < |rows| ==>
          d.rows[i].endsAt - d.rows[i].startsAt
          == rows[i].endsAt - rows[i].startsAt + AddedTo(d.log, rows[i].number) - AddedTo(log, rows[i].number))
    && (rows != [] ==>
          d.rows[|rows| - 1].endsAt == rows[|rows| - 1].endsAt + AddedInAll(d.log) - AddedInAll(log))
  }

  lemma ShiftGrows(rows: seq<Row>, log: seq<Entry>, d: Desk, n: nat, shift: nat, e: Entry)
    requires Contiguous(rows) && Contiguous(d.rows) && GrownFrom(rows, log, d)
    requires FindNumber(d.rows, n).Some? && e.round == n && ShiftOf(e) == shift
    ensures GrownFrom(rows, log, Desk(ShiftFrom(d.rows, n, shift), d.log + [e]))
  {
    hide ShiftFrom, Contiguous, FindNumber;
    FindNumberFinds(d.rows, n);
    ghost var k :| 0 <= k < |d.rows| && d.rows[k].number == n;
    assert (d.log + [e])[..|d.log|] == d.log;
    ShiftOfEach(d.rows, k, shift);
  }

  /** What a shift does row by row, by position. */
  lemma ShiftOfEach(rows: seq<Row>, k: nat, d: int)
    requires Contiguous(rows) && k < |rows|
    ensures var after := ShiftFrom(rows, rows[k].number, d);
            forall i :: 0 <= i < |rows| ==>
              && after[i].number == rows[i].number
              && after[i].startsAt == rows[i].startsAt + (if i > k then d else 0)
              && after[i].endsAt == rows[i].endsAt + (if i >= k then d else 0)
              && (rows[i].number == rows[k].number <==> i == k)
  {
  }

  lemma PauseGrows(rows: seq<Row>, log: seq<Entry>, d: Desk, n: nat, at: int)
    requires GrownFrom(rows, log, d)
    ensures GrownFrom(rows, log, d.(log := d.log + [Paused(n, at)]))
  {
    assert (d.log + [Paused(n, at)])[..|d.log|] == d.log;
  }

  lemma StepGrows(rows: seq<Row>, log: seq<Entry>, d: Desk, act: Act)
    requires Inv(d) && Contiguous(rows) && GrownFrom(rows, log, d)
    ensures GrownFrom(rows, log, Apply(d, act))
  {
    hide GrownFrom, ShiftFrom, PhaseAt, Ordered, PauseHolds;
    var r := Try(d, act);
    if r.Success? {
      match act
      case Pause(now) =>
        PauseGrows(rows, log, d, Running(d, now).value.number, now);
      case Resume(now) =>
        var last := d.log[|d.log| - 1];
        ShiftGrows(rows, log, d, last.round, ResumeShift(now, last.at), r.value.log[|d.log|]);
      case Extend(now, seconds) =>
        var run := Running(d, now).value;
        FindNumberFinds(d.rows, run.number);
        ShiftGrows(rows, log, d, run.number, seconds * SECOND, r.value.log[|d.log|]);
    }
  }

  /**
   Any run of actions, refused ones included, keeps the table ordered and contiguously numbered,
   keeps every gap and the first start, and lengthens each round by exactly what was logged for it.
   */
  lemma {:induction false} EveryRunKeepsTheTable(d: Desk, acts: seq<Act>)
    requires Inv(d)
    ensures Inv(ApplyAll(d, acts)) && GrownFrom(d.rows, d.log, ApplyAll(d, acts))
  {
    hide Ordered, Try, PauseHolds, Apply;
    if acts != [] {
      var before := acts[..|acts| - 1];
      EveryRunKeepsTheTable(d, before);
      StepKeepsInv(ApplyAll(d, before), acts[|acts| - 1]);
      StepGrows(d.rows, d.log, ApplyAll(d, before), acts[|acts| - 1]);
    }
  }

  /** The table never moves back: no action makes any round start or end earlier. */
  lemma NothingMovesBack(d: Desk, act: Act)
    requires Inv(d)
    ensures var t := Apply(d, act);
            |t.rows| == |d.rows| && forall i :: 0 <= i < |d.rows| ==>
              && t.rows[i].startsAt >= d.rows[i].startsAt && t.rows[i].endsAt >= d.rows[i].endsAt
  {
    hide ShiftFrom, FindNumber, Running, Inv;
    if Try(d, act).Success? {
      match act
      case Pause(now) =>
      case Resume(now) => ShiftMovesForward(d.rows, d.log[|d.log| - 1].round, ResumeShift(now, d.log[|d.log| - 1].at));
      case Extend(now, seconds) => ShiftMovesForward(d.rows, Running(d, now).value.number, seconds * SECOND);
    }
  }

  lemma ShiftMovesForward(rows: seq<Row>, n: nat, d: nat)
    ensures var after := ShiftFrom(rows, n, d);
            forall i :: 0 <= i < |rows| ==> after[i].startsAt >= rows[i].startsAt && after[i].endsAt >= rows[i].endsAt
  {
  }

  // ----- pausing and resuming

  /**
   Whenever a resume succeeds in a run, the round that was running at the pause is in progress
   again, with the time it had left at the pause plus what a pause shorter than a second lacks.
   */
  lemma ResumeRestoresTheRound(d: Desk, acts: seq<Act>, now: int)
    requires Inv(d)
    requires var t := ApplyAll(d, acts); Try(t, Resume(now)).Success? && t.log[|t.log| - 1].at <= now
    ensures var t := ApplyAll(d, acts);
            var pausedAt := t.log[|t.log| - 1].at;
            var atPause := PhaseAt(t.rows, LEAD, pausedAt);
            var r := PhaseAt(Apply(t, Resume(now)).rows, LEAD, now);
            && atPause.phase == InRound && r.phase == InRound
            && r.round.value.number == atPause.round.value.number == t.log[|t.log| - 1].round
            && r.remaining.value == atPause.remaining.value + (if now - pausedAt < SECOND then SECOND - (now - pausedAt) else 0)
  {
    EveryRunKeepsTheTable(d, acts);
    ResumeRestores(ApplyAll(d, acts), now);
  }

  lemma ResumeRestores(t: Desk, now: int)
    requires Inv(t) && Try(t, Resume(now)).Success? && t.log[|t.log| - 1].at <= now
    ensures var pausedAt := t.log[|t.log| - 1].at;
            var atPause := PhaseAt(t.rows, LEAD, pausedAt);
            var r := PhaseAt(Apply(t, Resume(now)).rows, LEAD, now);
            && atPause.phase == InRound && r.phase == InRound
            && r.round.value.number == atPause.round.value.number == t.log[|t.log| - 1].round
            && r.remaining.value == atPause.remaining.value + (if now - pausedAt < SECOND then SECOND - (now - pausedAt) else 0)
  {
    hide Ordered, Contiguous, ShiftFrom, Ended;
    var last := t.log[|t.log| - 1];
    InRoundIsEnded(t.rows, last.at);
    LongerRoundStillRuns(t.rows, last.at, now, ResumeShift(now, last.at));
  }

  lemma InRoundIsEnded(rows: seq<Row>, at: int)
    requires Ordered(rows) && PhaseAt(rows, LEAD, at).phase == InRound
    ensures var k := Ended(rows, at); var r := PhaseAt(rows, LEAD, at);
            k < |rows| && rows[k].startsAt <= at < rows[k].endsAt && r.round == Some(rows[k]) && r.remaining == Some(rows[k].endsAt - at)
  {
    EndedIsPrefix(rows, at);
  }

  lemma FirstOpenRound(rows: seq<Row>, now: int, k: nat)
    requires Ordered(rows) && k < |rows| && now < rows[k].endsAt && (k == 0 || rows[k - 1].endsAt <= now)
    ensures Ended(rows, now) == k
  {
    EndedIsPrefix(rows, now);
  }

  lemma ShiftAround(rows: seq<Row>, k: nat, d: int)
    requires Contiguous(rows) && k < |rows|
    ensures var after := ShiftFrom(rows, rows[k].number, d);
            after[k] == rows[k].(endsAt := rows[k].endsAt + d) && (k > 0 ==> after[k - 1] == rows[k - 1])
  {
  }

  /** Lengthening the round that runs at one moment keeps it running until its new end. */
  lemma LongerRoundStillRuns(rows: seq<Row>, at: int, now: int, d: nat)
    requires Ordered(rows) && Contiguous(rows) && at <= now && Ended(rows, at) < |rows|
    requires var row := rows[Ended(rows, at)]; row.startsAt <= at && now < row.endsAt + d
    ensures var row := rows[Ended(rows, at)];
            PhaseAt(ShiftFrom(rows, row.number, d), LEAD, now) ==
            Reading(InRound, Some(row.(endsAt := row.endsAt + d)), Some(row.endsAt + d - now))
  {
    hide Ordered, Contiguous, ShiftFrom, Ended;
    var k := Ended(rows, at);
    EndedIsPrefix(rows, at);
    ShiftKeepsOrder(rows, rows[k].number, d);
    ShiftAround(rows, k, d);
    FirstOpenRound(ShiftFrom(rows, rows[k].number, d), now, k);
  }

  /** Extending a paused round ends the pause without a resume, which is then refused. */
  lemma ExtendCancelsThePause(d: Desk, now: int, seconds: int, later: int)
    requires Inv(d) && PausedNow(d) && Try(d, Extend(now, seconds)).Success?
    ensures Try(Apply(d, Extend(now, seconds)), Resume(later)) == Failure(NotPaused)
    ensures forall at :: Running(Apply(d, Extend(now, seconds)), at).Some? ==>
              Try(Apply(d, Extend(now, seconds)), Pause(at)).Success?
  {
  }
}

/**
 The timetable of an event as rows of rounds, and the phase that a moment falls into.
 Times and durations are whole microseconds.
 */
module Timetable {
  import opened Wrappers

  datatype Row = Row(number: nat, startsAt: int, endsAt: int)

  datatype Phase = NotStarted | Preconnect | InRound | Break | Completed

  /** What the scheduler reports: the phase, the round it belongs to, the time to the next change. */
  datatype Reading = Reading(phase: Phase, round: Option<Row>, remaining: Option<int>)

  // ----- tables

  /** Rounds last some time and follow one another. */
  ghost predicate Ordered(rows: seq<Row>) {
    && (forall i :: 0 <= i < |rows| ==> rows[i].startsAt < rows[i].endsAt)
    && (forall i, j :: 0 <= i < j < |rows| ==> rows[i].endsAt <= rows[j].startsAt)
  }

  /** Rows are listed by their unique number. */
  ghost predicate Listed(rows: seq<Row>) {
    forall i, j :: 0 <= i < j < |rows| ==> rows[i].number < rows[j].number
  }

  /** No number is missing between the first and the last row. */
  ghost predicate Contiguous(rows: seq<Row>) {
    forall i :: 0 <= i < |rows| ==> rows[i].number == rows[0].number + i
  }

  // ----- the partition of time

  /** How many rounds are over at a moment. */
  function Ended(rows: seq<Row>, now: int): nat {
    if rows == [] then 0
    else Ended(rows[..|rows| - 1], now) + (if rows[|rows| - 1].endsAt <= now then 1 else 0)
  }

  /** On an ordered table the rounds that are over are the first ones. */
  lemma {:induction false} EndedIsPrefix(rows: seq<Row>, now: int)
    requires Ordered(rows)
    ensures var k := Ended(rows, now);
            && k <= |rows|
            && (forall i :: 0 <= i < k ==> rows[i].endsAt <= now)
            && (forall i :: k <= i < |rows| ==> now < rows[i].endsAt)
  {
    if rows != [] {
      EndedIsPrefix(rows[..|rows| - 1], now);
    }
  }

  /** The phase a moment belongs to, told from the first round that is not over. */
  function PhaseAt(rows: seq<Row>, lead: nat, now: int): Reading {
    var k := Ended(rows, now);
    if rows == [] then Reading(NotStarted, None, None)
    else if k >= |rows| then Reading(Completed, Some(rows[|rows| - 1]), Some(0))
    else if rows[k].startsAt <= now then Reading(InRound, Some(rows[k]), Some(rows[k].endsAt - now))
    else if rows[k].startsAt - lead <= now then Reading(Preconnect, Some(rows[k]), Some(rows[k].startsAt - now))
    else if k == 0 then Reading(NotStarted, None, Some(rows[0].startsAt - lead - now))
    else Reading(Break, Some(rows[k - 1]), Some(rows[k].startsAt - lead - now))
  }

  // ----- the scheduler's first-match scan

  function FindNumber(rows: seq<Row>, number: nat): Option<Row> {
    if rows == [] then None
    else if rows[0].number == number then Some(rows[0])
    else FindNumber(rows[1..], number)
  }

  /** What one row says about a moment: it is before it, in it, or in the break after it. */
  function RowSays(rows: seq<Row>, row: Row, lead: nat, now: int): Option<Reading> {
    var next := FindNumber(rows, row.number + 1);
    if row.startsAt - lead <= now < row.startsAt then
      Some(Reading(Preconnect, Some(row), Some(row.startsAt - now)))
    else if row.startsAt <= now < row.endsAt then
      Some(Reading(InRound, Some(row), Some(row.endsAt - now)))
    else if next.Some? && row.endsAt <= now < next.value.startsAt - lead then
      Some(Reading(Break, Some(row), Some(next.value.startsAt - lead - now)))
    else None
  }

  /** No row from the first up to, but not including, i says anything. */
  ghost predicate Silent(rows: seq<Row>, lead: nat, now: int, i: nat)
    requires i <= |rows|
  {
    forall j :: 0 <= j < i ==> RowSays(rows, rows[j], lead, now).None?
  }

  /** The scheduler's answer on any table at all, gaps and overlaps included. */
  ghost predicate FirstMatch(rows: seq<Row>, lead: nat, now: int, r: Reading) {
    if rows == [] then r == Reading(NotStarted, None, None)
    else if now < rows[0].startsAt - lead then r == Reading(NotStarted, None, Some(rows[0].startsAt - lead - now))
    else if Silent(rows, lead, now, |rows|) then
      r == if now >= rows[|rows| - 1].endsAt then Reading(Completed, Some(rows[|rows| - 1]), Some(0))
           else Reading(NotStarted, None, None)
    else exists i :: 0 <= i < |rows| && Silent(rows, lead, now, i) && RowSays(rows, rows[i], lead, now) == Some(r)
  }

  lemma FirstMatchIsUnique(rows: seq<Row>, lead: nat, now: int, r: Reading, q: Reading)
    requires FirstMatch(rows, lead, now, r) && FirstMatch(rows, lead, now, q)
    ensures r == q
  {
  }

  method NextRow(rows: seq<Row>, number: nat) returns (found: Option<Row>)
    ensures found == FindNumber(rows, number)
  {
    for i := 0 to |rows|
      invariant FindNumber(rows, number) == FindNumber(rows[i..], number)
    {
      if rows[i].number == number {
        return Some(rows[i]);
      }
    }
    return None;
  }

  method GetCurrentPhase(rows: seq<Row>, lead: nat, now: int) returns (r: Reading)
    ensures FirstMatch(rows, lead, now, r)
    ensures Ordered(rows) && Contiguous(rows) ==> r == PhaseAt(rows, lead, now)
  {
    if rows == [] {
      return Reading(NotStarted, None, None);
    }
    var firstPreconnect := rows[0].startsAt - lead;
    if now < firstPreconnect {
      r := Reading(NotStarted, None, Some(firstPreconnect - now));
      MatchIsPhase(rows, lead, now, r);
      return;
    }
    for i := 0 to |rows|
      invariant Silent(rows, lead, now, i)
    {
      var row := rows[i];
      var preconnectTime := row.startsAt - lead;
      if preconnectTime <= now < row.startsAt {
        r := Reading(Preconnect, Some(row), Some(row.startsAt - now));
        MatchIsPhase(rows, lead, now, r);
        return;
      }
      if row.startsAt <= now < row.endsAt {
        r := Reading(InRound, Some(row), Some(row.endsAt - now));
        MatchIsPhase(rows, lead, now, r);
        return;
      }
      var next := NextRow(rows, row.number + 1);
      if next.Some? {
        var nextPreconnect := next.value.startsAt - lead;
        if row.endsAt <= now < nextPreconnect {
          r := Reading(Break, Some(row), Some(nextPreconnect - now));
          MatchIsPhase(rows, lead, now, r);
          return;
        }
      }
    }
    var last := rows[|rows| - 1];
    if now >= last.endsAt {
      r := Reading(Completed, Some(last), Some(0));
    } else {
      r := Reading(NotStarted, None, None);
    }
    MatchIsPhase(rows, lead, now, r);
  }

  // ----- the scan agrees with the partition

  lemma {:induction false} FindNumberFinds(rows: seq<Row>, number: nat)
    ensures var f := FindNumber(rows, number);
            && (f.Some? ==> f.value in rows && f.value.number == number)
            && (f.None? ==> forall i :: 0 <= i < |rows| ==> rows[i].number != number)
  {
    if rows != [] && rows[0].number != number {
      FindNumberFinds(rows[1..], number);
      var f := FindNumber(rows[1..], number);
      if f.None? {
        forall i | 0 <= i < |rows| ensures rows[i].number != number {
          assert i > 0 ==> rows[i] == rows[1..][i - 1];
        }
      }
    }
  }

  /** In a listed table the next number, if there is one at all, is in the next row. */
  lemma NextIsAdjacent(rows: seq<Row>, i: nat)
    requires Listed(rows) && i < |rows|
    ensures FindNumber(rows, rows[i].number + 1) ==
            if i + 1 < |rows| && rows[i + 1].number == rows[i].number + 1 then Some(rows[i + 1]) else None
  {
    FindNumberFinds(rows, rows[i].number + 1);
    var f := FindNumber(rows, rows[i].number + 1);
    if f.Some? {
      var j :| 0 <= j < |rows| && rows[j] == f.value;
      assert i < j;
      assert rows[i].number < rows[i + 1].number <= rows[j].number;
    }
  }

  /** The moment lies after a round whose successor is missing and before the next preconnect. */
  ghost predicate InNumberingGap(rows: seq<Row>, lead: nat, now: int) {
    var k := Ended(rows, now);
    0 < k < |rows| && rows[k].number != rows[k - 1].number + 1 && now < rows[k].startsAt - lead
  }

  /** Rounds that are over are silent, except the last of them about the break that follows it. */
  lemma EndedRowsAreSilent(rows: seq<Row>, lead: nat, now: int)
    requires Ordered(rows) && Listed(rows)
    ensures var k := Ended(rows, now);
            && k <= |rows| && (k > 0 ==> Silent(rows, lead, now, k - 1))
            && (k > 0 && (InNumberingGap(rows, lead, now) || k == |rows| || rows[k].startsAt - lead <= now) ==>
                  Silent(rows, lead, now, k))
  {
    hide Ended, RowSays, Ordered, Listed;
    EndedIsPrefix(rows, now);
    var k := Ended(rows, now);
    forall i | 0 <= i < k - 1 ensures RowSays(rows, rows[i], lead, now).None? {
      EarlyRowIsSilent(rows, lead, now, i);
    }
    if k > 0 && (InNumberingGap(rows, lead, now) || k == |rows| || rows[k].startsAt - lead <= now) {
      LastEndedIsSilent(rows, lead, now, k);
    }
  }

  lemma EarlyRowIsSilent(rows: seq<Row>, lead: nat, now: int, i: nat)
    requires Ordered(rows) && Listed(rows) && i + 1 < |rows| && rows[i + 1].endsAt <= now
    ensures RowSays(rows, rows[i], lead, now).None?
  {
    NextIsAdjacent(rows, i);
    assert rows[i].startsAt < rows[i].endsAt <= rows[i + 1].startsAt < rows[i + 1].endsAt;
  }

  lemma LastEndedIsSilent(rows: seq<Row>, lead: nat, now: int, k: nat)
    requires Ordered(rows) && Listed(rows) && 0 < k <= |rows| && rows[k - 1].endsAt <= now
    requires k == |rows| || rows[k].number != rows[k - 1].number + 1 || rows[k].startsAt - lead <= now
    ensures RowSays(rows, rows[k - 1], lead, now).None?
  {
    NextIsAdjacent(rows, k - 1);
    assert rows[k - 1].startsAt < rows[k - 1].endsAt;
  }

  /** A moment in a numbering gap is the only one that the scan and the partition disagree on. */
  lemma MatchIsPhaseOutsideGaps(rows: seq<Row>, lead: nat, now: int)
    requires Ordered(rows) && Listed(rows)
    ensures FirstMatch(rows, lead, now,
              if InNumberingGap(rows, lead, now) then Reading(NotStarted, None, None) else PhaseAt(rows, lead, now))
  {
    EndedIsPrefix(rows, now);
    EndedRowsAreSilent(rows, lead, now);
    var k := Ended(rows, now);
    if rows != [] && k < |rows| {
      if InNumberingGap(rows, lead, now) {
        forall i | 0 <= i < |rows| ensures RowSays(rows, rows[i], lead, now).None? {
          assert i > k ==> rows[k].endsAt <= rows[i].startsAt;
        }
      } else if k > 0 && now < rows[k].startsAt - lead {
        NextIsAdjacent(rows, k - 1);
        assert RowSays(rows, rows[k - 1], lead, now) == Some(PhaseAt(rows, lead, now));
      } else if rows[k].startsAt - lead <= now {
        assert RowSays(rows, rows[k], lead, now) == Some(PhaseAt(rows, lead, now));
      }
    }
  }

  lemma MatchIsPhase(rows: seq<Row>, lead: nat, now: int, r: Reading)
    requires FirstMatch(rows, lead, now, r)
    ensures Ordered(rows) && Contiguous(rows) ==> r == PhaseAt(rows, lead, now)
  {
    if Ordered(rows) && Contiguous(rows) {
      MatchIsPhaseOutsideGaps(rows, lead, now);
      FirstMatchIsUnique(rows, lead, now, r, PhaseAt(rows, lead, now));
    }
  }

  /** The last return of the scan, "not started" without a time, is taken in numbering gaps only. */
  lemma FallbackExactly(rows: seq<Row>, lead: nat, now: int, r: Reading)
    requires Ordered(rows) && Listed(rows) && rows != [] && FirstMatch(rows, lead, now, r)
    ensures r == Reading(NotStarted, None, None) <==> InNumberingGap(rows, lead, now)
  {
    MatchIsPhaseOutsideGaps(rows, lead, now);
    FirstMatchIsUnique(rows, lead, now, r,
      if InNumberingGap(rows, lead, now) then Reading(NotStarted, None, None) else PhaseAt(rows, lead, now));
  }

  // ----- time moves the phase forwards

  /** Phases in the order of the event: 3k waiting for the k-th round, 3k+1 its preconnect, 3k+2 the round. */
  function Rank(rows: seq<Row>, lead: nat, now: int): int {
    var k := Ended(rows, now);
    if k >= |rows| then 3 * |rows|
    else 3 * k + (if rows[k].startsAt <= now then 2 else if rows[k].startsAt - lead <= now then 1 else 0)
  }

  lemma {:induction false} EndedIsMonotone(rows: seq<Row>, now: int, later: int)
    requires now <= later
    ensures Ended(rows, now) <= Ended(rows, later)
  {
    if rows != [] {
      EndedIsMonotone(rows[..|rows| - 1], now, later);
    }
  }

  lemma RankIsMonotone(rows: seq<Row>, lead: nat, now: int, later: int)
    requires Ordered(rows) && now <= later
    ensures Rank(rows, lead, now) <= Rank(rows, lead, later)
  {
    EndedIsMonotone(rows, now, later);
    EndedIsPrefix(rows, now);
    EndedIsPrefix(rows, later);
  }

  /** The reported remaining time is exact: until then nothing changes, and then the phase moves on. */
  lemma RemainingIsExact(rows: seq<Row>, lead: nat, now: int, later: int)
    requires Ordered(rows) && Contiguous(rows) && rows != [] && now <= later
    requires PhaseAt(rows, lead, now).phase != Completed
    ensures var r := PhaseAt(rows, lead, now); var q := PhaseAt(rows, lead, later);
            && r.remaining.Some? && r.remaining.value > 0
            && (later < now + r.remaining.value <==> q.phase == r.phase && q.round == r.round)
            && (later >= now + r.remaining.value ==> Rank(rows, lead, now) < Rank(rows, lead, later))
  {
    hide Listed;
    EndedIsMonotone(rows, now, later);
    EndedIsPrefix(rows, now);
    EndedIsPrefix(rows, later);
  }

  // ----- the full schedule

  datatype ScheduledRound = ScheduledRound(
    number: nat, preconnectStartsAt: int, startsAt: int, endsAt: int, breakEndsAt: Option<int>)

  /** The durations an event is set up with. */
  datatype Plan = Plan(startTime: int, numRounds: nat, roundDuration: int, breakDuration: int)

  /** The start of round n by the closed form start + (n - 1) * (round + break). */
  function StartOf(plan: Plan, n: nat): int {
    plan.startTime + (n - 1) * (plan.roundDuration + plan.breakDuration)
  }

  /** The end of the whole event, as join tokens expire by it. */
  function EventEnd(plan: Plan): int {
    plan.startTime + (plan.numRounds * plan.roundDuration
                      + (if plan.numRounds == 0 then 0 else plan.numRounds - 1) * plan.breakDuration)
  }

  /** The timetable in closed form. */
  function ClosedForm(plan: Plan): (rows: seq<Row>)
    ensures |rows| == plan.numRounds
  {
    seq(plan.numRounds, i requires 0 <= i => Row(i + 1, StartOf(plan, i + 1), StartOf(plan, i + 1) + plan.roundDuration))
  }

  method CalculateFullSchedule(plan: Plan, lead: int) returns (schedule: seq<ScheduledRound>)
    ensures |schedule| == plan.numRounds
    ensures forall i :: 0 <= i < |schedule| ==>
              var row := ClosedForm(plan)[i];
              && schedule[i].number == row.number && schedule[i].startsAt == row.startsAt && schedule[i].endsAt == row.endsAt
              && schedule[i].preconnectStartsAt == row.startsAt - lead
    ensures forall i :: 0 <= i < |schedule| - 1 ==> schedule[i].breakEndsAt == Some(StartOf(plan, i + 2))
    ensures schedule != [] ==> schedule[|schedule| - 1].breakEndsAt == None && schedule[|schedule| - 1].endsAt == EventEnd(plan)
  {
    schedule := [];
    var currentRoundStart := plan.startTime;
    StepsOf(plan, 0);
    for i := 1 to plan.numRounds + 1
      invariant |schedule| == i - 1
      invariant i <= plan.numRounds ==> currentRoundStart == StartOf(plan, i)
      invariant forall j :: 0 <= j < |schedule| ==>
                  schedule[j] == ScheduledRound(j + 1, StartOf(plan, j + 1) - lead, StartOf(plan, j + 1),
                    StartOf(plan, j + 1) + plan.roundDuration,
                    if j + 1 == plan.numRounds then None else Some(StartOf(plan, j + 2)))
    {
      var roundEnd := currentRoundStart + plan.roundDuration;
      var isLast := i == plan.numRounds;
      var breakEnd := if isLast then None else Some(roundEnd + plan.breakDuration);
      StepsOf(plan, i);
      schedule := schedule + [ScheduledRound(i, currentRoundStart - lead, currentRoundStart, roundEnd, breakEnd)];
      if !isLast {
        currentRoundStart := breakEnd.value;
      }
    }
  }

  lemma StepsOf(plan: Plan, i: nat)
    ensures StartOf(plan, 1) == plan.startTime
    ensures StartOf(plan, i + 1) == StartOf(plan, i) + plan.roundDuration + plan.breakDuration
    ensures plan.numRounds > 0 ==> StartOf(plan, plan.numRounds) + plan.roundDuration == EventEnd(plan)
  {
    if plan.numRounds > 0 {
      var n, r, b := plan.numRounds, plan.roundDuration, plan.breakDuration;
      assert (n - 1) * (r + b) + r == n * r + (n - 1) * b;
    }
    var d := plan.roundDuration + plan.breakDuration;
    assert (i + 1 - 1) * d == (i - 1) * d + d;
  }

  lemma {:induction false} StartsGrow(plan: Plan, i: nat, j: nat)
    requires plan.roundDuration > 0 && plan.breakDuration >= 0 && i < j
    ensures StartOf(plan, i) + plan.roundDuration <= StartOf(plan, j)
    decreases j - i
  {
    StepsOf(plan, j - 1);
    if i + 1 < j {
      StartsGrow(plan, i, j - 1);
    }
  }

  /** With durations an event may have, the timetable is ordered, numbered from 1 and ends when the event does. */
  lemma ClosedFormIsOrdered(plan: Plan)
    requires plan.roundDuration > 0 && plan.breakDuration >= 0
    ensures Ordered(ClosedForm(plan)) && Contiguous(ClosedForm(plan))
    ensures plan.numRounds > 0 ==> ClosedForm(plan)[plan.numRounds - 1].endsAt == EventEnd(plan)
    ensures plan.numRounds == 0 ==> EventEnd(plan) == plan.startTime
  {
    var rows := ClosedForm(plan);
    forall i, j | 0 <= i < j < |rows| ensures rows[i].endsAt <= rows[j].startsAt {
      StartsGrow(plan, i + 1, j + 1);
    }
    StepsOf(plan, 0);
  }

  /** A fresh timetable reads "completed" from the event's end on and never before it. */
  lemma CompletedFromEventEnd(plan: Plan, lead: nat, now: int)
    requires plan.roundDuration > 0 && plan.breakDuration >= 0 && plan.numRounds > 0
    ensures PhaseAt(ClosedForm(plan), lead, now).phase == Completed <==> EventEnd(plan) <= now
  {
    ClosedFormIsOrdered(plan);
    EndedIsPrefix(ClosedForm(plan), now);
  }

  // ----- writing the timetable over an earlier one

  datatype Slot = Slot(startsAt: int, endsAt: int)

  /** The stored rounds of one event by number. */
  class RoundTable {
    var slots: map<nat, Slot>

    constructor (slots: map<nat, Slot>)
      ensures this.slots == slots
    {
      this.slots := slots;
    }

    /** Writes the calculated rounds and leaves every other stored round as it is. */
    method PersistSchedule(plan: Plan, lead: int)
      modifies this
      ensures slots == old(slots) + Written(plan, plan.numRounds)
    {
      hide StartOf, ClosedForm, Written;
      var calculated := CalculateFullSchedule(plan, lead);
      NothingWritten(plan);
      var i := 0;
      while i < |calculated|
        invariant 0 <= i <= |calculated|
        invariant slots == old(slots) + Written(plan, i)
      {
        WrittenNext(plan, i, lead, calculated[i]);
        slots := slots[calculated[i].number := Slot(calculated[i].startsAt, calculated[i].endsAt)];
        i := i + 1;
      }
    }
  }

  lemma NothingWritten(plan: Plan)
    ensures Written(plan, 0) == map[]
  {
  }

  lemma WrittenNext(plan: Plan, i: nat, lead: int, r: ScheduledRound)
    requires i < plan.numRounds
    requires var row := ClosedForm(plan)[i]; r.number == row.number && r.startsAt == row.startsAt && r.endsAt == row.endsAt
    ensures Written(plan, i + 1) == Written(plan, i)[r.number := Slot(r.startsAt, r.endsAt)]
  {
  }

  predicate Numbered(n: nat, upTo: nat) {
    1 <= n <= upTo
  }

  /** The first n rounds of the closed form by number. */
  function Written(plan: Plan, n: nat): (m: map<nat, Slot>)
    ensures forall k :: k in m <==> Numbered(k, n)
  {
    map k: nat | 0 <= k <= n && Numbered(k, n) :: Slot(StartOf(plan, k), StartOf(plan, k) + plan.roundDuration)
  }

  /**
   Writing over an earlier timetable leaves exactly the new one if and only if the earlier one
   had no round with a higher number than the new one has; such rounds stay with their old times.
   */
  lemma StaleRoundsStay(before: map<nat, Slot>, plan: Plan)
    ensures var after := before + Written(plan, plan.numRounds);
            && (after == Written(plan, plan.numRounds) <==> forall k :: k in before ==> Numbered(k, plan.numRounds))
            && (forall k :: k in before && !Numbered(k, plan.numRounds) ==> k in after && after[k] == before[k])
  {
    var w := Written(plan, plan.numRounds);
    var after := before + w;
    if forall k :: k in before ==> Numbered(k, plan.numRounds) {
      assert after == w;
    } else {
      var k :| k in before && !Numbered(k, plan.numRounds);
      assert k in after && k !in w;
    }
  }
}

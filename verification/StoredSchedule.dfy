/**
 Which schedules can be stored at all, told from their own pairs: nothing is assumed about the
 schedule, so this also says what happens to one that the checker never saw.
 */
module StoredSchedule {
  import opened Wrappers
  import opened ScheduleTypes
  import opened ScheduleMeaning
  import opened Timetable
  import opened Persistence

  // ----- two pairs of a schedule side by side

  function Low(parse: UuidParse, sp: SchedulePair): int
    requires ReadablePair(parse, sp)
  {
    var a, b := parse(sp.pidA).value, parse(sp.pidB).value;
    if a < b then a else b
  }

  function High(parse: UuidParse, sp: SchedulePair): int
    requires ReadablePair(parse, sp)
  {
    var a, b := parse(sp.pidA).value, parse(sp.pidB).value;
    if a < b then b else a
  }

  /** The room of a pair does not depend on which of two different people is named first. */
  function RoomOf(parse: UuidParse, hash: RoomHash, number: int, sp: SchedulePair): string
    requires ReadablePair(parse, sp)
  {
    if parse(sp.pidA).value == Low(parse, sp) then hash(number, sp.pidA, sp.pidB) else hash(number, sp.pidB, sp.pidA)
  }

  predicate Place(schedule: Schedule, r: int, k: int) {
    0 <= r < |schedule| && 0 <= k < |schedule[r].pairs|
  }

  predicate Earlier(r: int, k: int, s: int, l: int) {
    r < s || (r == s && k < l)
  }

  /** Two people of different UUIDs, in a room no other event has. */
  ghost predicate StandsAlone(parse: UuidParse, hash: RoomHash, schedule: Schedule, taken: set<string>, r: int, k: int)
    requires Place(schedule, r, k)
  {
    var sp := schedule[r].pairs[k];
    ReadablePair(parse, sp) && parse(sp.pidA) != parse(sp.pidB) && RoomOf(parse, hash, schedule[r].number, sp) !in taken
  }

  /** Not the same two people, in one round neither the same lower nor the same higher one, not one room. */
  ghost predicate StandTogether(parse: UuidParse, hash: RoomHash, schedule: Schedule, r: int, k: int, s: int, l: int)
    requires Place(schedule, r, k) && Place(schedule, s, l)
    requires ReadablePair(parse, schedule[r].pairs[k]) && ReadablePair(parse, schedule[s].pairs[l])
  {
    var sp, sq := schedule[r].pairs[k], schedule[s].pairs[l];
    var sameLow, sameHigh := Low(parse, sp) == Low(parse, sq), High(parse, sp) == High(parse, sq);
    && !(sameLow && sameHigh)
    && (schedule[r].number == schedule[s].number ==> !sameLow && !sameHigh)
    && RoomOf(parse, hash, schedule[r].number, sp) != RoomOf(parse, hash, schedule[s].number, sq)
  }

  ghost predicate RoundsFit(plan: Plan, schedule: Schedule) {
    && (forall i :: 0 <= i < |schedule| ==> schedule[i].number >= 0)
    && (forall i, j :: 0 <= i < j < |schedule| ==> schedule[i].number != schedule[j].number)
    && (schedule != [] ==> plan.roundDuration > 0)
  }

  ghost predicate PairsFit(parse: UuidParse, hash: RoomHash, schedule: Schedule, taken: set<string>) {
    && (forall r, k :: Place(schedule, r, k) ==> StandsAlone(parse, hash, schedule, taken, r, k))
    && (forall r, k, s, l :: Place(schedule, r, k) && Place(schedule, s, l) && Earlier(r, k, s, l) ==>
          StandTogether(parse, hash, schedule, r, k, s, l))
  }

  // ----- the rows are the pairs, place by place

  lemma FrontReadable(parse: UuidParse, schedule: Schedule, n: nat)
    requires AllReadable(parse, schedule) && n <= |schedule|
    ensures AllReadable(parse, schedule[..n])
  {
    hide RoundReadable;
  }

  /** Where the row of a place is. */
  function At(parse: UuidParse, hash: RoomHash, schedule: Schedule, r: int, k: int): int
    requires AllReadable(parse, schedule) && Place(schedule, r, k)
  {
    FrontReadable(parse, schedule, r);
    |PairRows(parse, hash, schedule[..r])| + k
  }

  lemma {:induction false} FrontRows(parse: UuidParse, hash: RoomHash, schedule: Schedule, n: nat)
    requires AllReadable(parse, schedule) && n <= |schedule|
    ensures AllReadable(parse, schedule[..n])
    ensures PairRows(parse, hash, schedule[..n]) <= PairRows(parse, hash, schedule)
  {
    hide RoundReadable, RoundRows;
    FrontReadable(parse, schedule, n);
    if n == |schedule| {
      assert schedule[..n] == schedule;
    } else {
      var front := schedule[..|schedule| - 1];
      FrontRows(parse, hash, front, n);
      assert front[..n] == schedule[..n];
    }
  }

  lemma OneRound(parse: UuidParse, hash: RoomHash, schedule: Schedule, r: nat)
    requires AllReadable(parse, schedule) && r < |schedule|
    ensures AllReadable(parse, schedule[..r]) && AllReadable(parse, schedule[..r + 1])
    ensures PairRows(parse, hash, schedule[..r + 1])
            == PairRows(parse, hash, schedule[..r]) + RoundRows(parse, hash, schedule[r], |schedule[r].pairs|)
  {
    hide RoundReadable, RoundRows;
    FrontReadable(parse, schedule, r);
    FrontReadable(parse, schedule, r + 1);
    assert schedule[..r + 1][..r] == schedule[..r] && schedule[..r + 1][r] == schedule[r];
  }

  lemma RowAt(parse: UuidParse, hash: RoomHash, schedule: Schedule, r: int, k: int)
    requires AllReadable(parse, schedule) && Place(schedule, r, k)
    ensures ReadablePair(parse, schedule[r].pairs[k])
    ensures var rows := PairRows(parse, hash, schedule); var i := At(parse, hash, schedule, r, k);
            0 <= i < |rows| && rows[i] == PairRow(parse, hash, schedule[r], schedule[r].pairs[k])
  {
    hide PairRows, PairRow;
    assert RoundReadable(parse, schedule[r]);
    OneRound(parse, hash, schedule, r);
    FrontRows(parse, hash, schedule, r + 1);
  }

  lemma {:induction false} PlaceOf(parse: UuidParse, hash: RoomHash, schedule: Schedule, i: nat) returns (r: int, k: int)
    requires AllReadable(parse, schedule) && i < |PairRows(parse, hash, schedule)|
    ensures Place(schedule, r, k) && At(parse, hash, schedule, r, k) == i
  {
    hide RoundReadable;
    var n := |schedule| - 1;
    var front := schedule[..n];
    FrontReadable(parse, schedule, n);
    if i < |PairRows(parse, hash, front)| {
      r, k := PlaceOf(parse, hash, front, i);
      assert front[..r] == schedule[..r];
    } else {
      r, k := n, i - |PairRows(parse, hash, front)|;
    }
  }

  lemma InOrder(parse: UuidParse, hash: RoomHash, schedule: Schedule, r: int, k: int, s: int, l: int)
    requires AllReadable(parse, schedule) && Place(schedule, r, k) && Place(schedule, s, l) && Earlier(r, k, s, l)
    ensures At(parse, hash, schedule, r, k) < At(parse, hash, schedule, s, l)
  {
    hide PairRows, RoundReadable;
    if r < s {
      OneRound(parse, hash, schedule, r);
      FrontReadable(parse, schedule, s);
      FrontRows(parse, hash, schedule[..s], r + 1);
      assert schedule[..s][..r + 1] == schedule[..r + 1];
    }
  }

  // ----- one row and two rows

  lemma RowTold(parse: UuidParse, hash: RoomHash, schedule: Schedule, taken: set<string>, r: int, k: int)
    requires Place(schedule, r, k) && ReadablePair(parse, schedule[r].pairs[k])
    ensures var row := PairRow(parse, hash, schedule[r], schedule[r].pairs[k]);
            StandsAlone(parse, hash, schedule, taken, r, k) <==> Below(parse, row.a, row.b) && row.room !in taken
  {
  }

  lemma RowsTold(parse: UuidParse, hash: RoomHash, schedule: Schedule, r: int, k: int, s: int, l: int)
    requires Place(schedule, r, k) && Place(schedule, s, l)
    requires ReadablePair(parse, schedule[r].pairs[k]) && ReadablePair(parse, schedule[s].pairs[l])
    ensures StandTogether(parse, hash, schedule, r, k, s, l) <==>
            PairsCoexist(parse, PairRow(parse, hash, schedule[r], schedule[r].pairs[k]), PairRow(parse, hash, schedule[s], schedule[s].pairs[l]))
  {
  }

  lemma ReadableFromPlaces(parse: UuidParse, hash: RoomHash, schedule: Schedule, taken: set<string>)
    requires forall r, k :: Place(schedule, r, k) ==> StandsAlone(parse, hash, schedule, taken, r, k)
    ensures AllReadable(parse, schedule)
  {
    forall i, k | 0 <= i < |schedule| && 0 <= k < |schedule[i].pairs| ensures ReadablePair(parse, schedule[i].pairs[k]) {
      assert Place(schedule, i, k);
    }
  }

  lemma AcceptedFits(parse: UuidParse, hash: RoomHash, schedule: Schedule, taken: set<string>)
    requires AllReadable(parse, schedule) && PairsAccepted(parse, PairRows(parse, hash, schedule), taken)
    ensures forall r, k :: Place(schedule, r, k) ==> ReadablePair(parse, schedule[r].pairs[k])
    ensures PairsFit(parse, hash, schedule, taken)
  {
    hide PairRows, PairRow, At, StandsAlone, StandTogether, Below, PairsCoexist, Earlier, ReadablePair, AllReadable;
    forall r, k | Place(schedule, r, k)
      ensures ReadablePair(parse, schedule[r].pairs[k]) && StandsAlone(parse, hash, schedule, taken, r, k)
    {
      RowAt(parse, hash, schedule, r, k);
      RowTold(parse, hash, schedule, taken, r, k);
    }
    forall r, k, s, l | Place(schedule, r, k) && Place(schedule, s, l) && Earlier(r, k, s, l)
      ensures StandTogether(parse, hash, schedule, r, k, s, l)
    {
      RowAt(parse, hash, schedule, r, k);
      RowAt(parse, hash, schedule, s, l);
      InOrder(parse, hash, schedule, r, k, s, l);
      RowsTold(parse, hash, schedule, r, k, s, l);
    }
  }

  lemma Ranked(parse: UuidParse, hash: RoomHash, schedule: Schedule, r: int, k: int, s: int, l: int)
    requires AllReadable(parse, schedule) && Place(schedule, r, k) && Place(schedule, s, l)
    requires At(parse, hash, schedule, r, k) < At(parse, hash, schedule, s, l)
    ensures Earlier(r, k, s, l)
  {
    hide At;
    if Earlier(s, l, r, k) {
      InOrder(parse, hash, schedule, s, l, r, k);
    }
  }

  lemma FitsAccepted(parse: UuidParse, hash: RoomHash, schedule: Schedule, taken: set<string>)
    requires AllReadable(parse, schedule) && PairsFit(parse, hash, schedule, taken)
    ensures PairsAccepted(parse, PairRows(parse, hash, schedule), taken)
  {
    hide PairRows, PairRow, At, StandsAlone, StandTogether, Below, PairsCoexist, Place, Earlier, ReadablePair, AllReadable;
    var rows := PairRows(parse, hash, schedule);
    forall i | 0 <= i < |rows| ensures Below(parse, rows[i].a, rows[i].b) && rows[i].room !in taken {
      var r, k := PlaceOf(parse, hash, schedule, i);
      RowAt(parse, hash, schedule, r, k);
      RowTold(parse, hash, schedule, taken, r, k);
    }
    forall i, j | 0 <= i < j < |rows| ensures PairsCoexist(parse, rows[i], rows[j]) {
      var r, k := PlaceOf(parse, hash, schedule, i);
      var s, l := PlaceOf(parse, hash, schedule, j);
      RowAt(parse, hash, schedule, r, k);
      RowAt(parse, hash, schedule, s, l);
      Ranked(parse, hash, schedule, r, k, s, l);
      RowsTold(parse, hash, schedule, r, k, s, l);
    }
  }

  /**
   Any schedule at all is stored if and only if its rounds have numbers of their own and some
   length, its ids can be read, and no two of its pairs are in each other's way.
   */
  lemma StorableIff(parse: UuidParse, hash: RoomHash, plan: Plan, schedule: Schedule, taken: set<string>)
    ensures Storable(parse, hash, plan, schedule, taken) <==> RoundsFit(plan, schedule) && PairsFit(parse, hash, schedule, taken)
  {
    RoundsFitIff(plan, schedule);
    hide PairRows, PairsAccepted, RoundsFit, RoundsAccepted, NumbersStorable, AllReadable, TimeRows, PairsFit;
    if AllReadable(parse, schedule) && PairsAccepted(parse, PairRows(parse, hash, schedule), taken) {
      AcceptedFits(parse, hash, schedule, taken);
    }
    if PairsFit(parse, hash, schedule, taken) {
      FitIsReadable(parse, hash, schedule, taken);
      FitsAccepted(parse, hash, schedule, taken);
    }
  }

  lemma FitIsReadable(parse: UuidParse, hash: RoomHash, schedule: Schedule, taken: set<string>)
    requires PairsFit(parse, hash, schedule, taken)
    ensures AllReadable(parse, schedule)
  {
    ReadableFromPlaces(parse, hash, schedule, taken);
  }

  lemma RoundsFitIff(plan: Plan, schedule: Schedule)
    ensures RoundsFit(plan, schedule) <==> NumbersStorable(schedule) && RoundsAccepted(TimeRows(plan, schedule))
  {
    if NumbersStorable(schedule) {
      var rows := TimeRows(plan, schedule);
      assert forall i :: 0 <= i < |rows| ==> rows[i].number == schedule[i].number && rows[i].endsAt - rows[i].startsAt == plan.roundDuration;
      if schedule != [] && RoundsAccepted(rows) {
        assert rows[0].startsAt < rows[0].endsAt;
      }
    }
  }
}

/**
 Storing a locked schedule: the rows of rounds and pairs that replace the earlier ones, the
 constraints the database puts on them, and who is told about a pairing.
 */
module Persistence {
  import opened Wrappers
  import opened ScheduleTypes
  import opened ScheduleMeaning
  import opened Timetable

  datatype StoredPair = StoredPair(round: int, a: Pid, b: Pid, room: string)

  /** How a room id is made from the event, the round and the two participants of a pair. */
  type EventHash = (string, int, Pid, Pid) -> string

  /** The same within one event. */
  type RoomHash = (int, Pid, Pid) -> string

  function ForEvent(hash: EventHash, event: string): RoomHash {
    (number: int, a: Pid, b: Pid) => hash(event, number, a, b)
  }

  // ----- rows

  function OrderedPair(parse: UuidParse, sp: SchedulePair): (Pid, Pid)
    requires Parses(parse, sp.pidA) && Parses(parse, sp.pidB)
  {
    if parse(sp.pidA).value > parse(sp.pidB).value then (sp.pidB, sp.pidA) else (sp.pidA, sp.pidB)
  }

  predicate RoundReadable(parse: UuidParse, r: ScheduleRound) {
    forall k :: 0 <= k < |r.pairs| ==> Parses(parse, r.pairs[k].pidA) && Parses(parse, r.pairs[k].pidB)
  }

  predicate AllReadable(parse: UuidParse, schedule: Schedule) {
    forall i :: 0 <= i < |schedule| ==> RoundReadable(parse, schedule[i])
  }

  function PairRow(parse: UuidParse, hash: RoomHash, r: ScheduleRound, sp: SchedulePair): StoredPair
    requires Parses(parse, sp.pidA) && Parses(parse, sp.pidB)
  {
    var (a, b) := OrderedPair(parse, sp);
    StoredPair(r.number, a, b, hash(r.number, a, b))
  }

  function RoundRows(parse: UuidParse, hash: RoomHash, r: ScheduleRound, n: nat): (rows: seq<StoredPair>)
    requires n <= |r.pairs| && RoundReadable(parse, r)
    ensures |rows| == n
  {
    seq(n, k requires 0 <= k < n => PairRow(parse, hash, r, r.pairs[k]))
  }

  function PairRows(parse: UuidParse, hash: RoomHash, schedule: Schedule): seq<StoredPair>
    requires AllReadable(parse, schedule)
  {
    if schedule == [] then []
    else
      var last := schedule[|schedule| - 1];
      PairRows(parse, hash, schedule[..|schedule| - 1]) + RoundRows(parse, hash, last, |last.pairs|)
  }

  function RoundRow(plan: Plan, number: nat): Row {
    Row(number, StartOf(plan, number), StartOf(plan, number) + plan.roundDuration)
  }

  predicate NumbersStorable(schedule: Schedule) {
    forall i :: 0 <= i < |schedule| ==> schedule[i].number >= 0
  }

  function TimeRows(plan: Plan, schedule: Schedule): (rows: seq<Row>)
    requires NumbersStorable(schedule)
    ensures |rows| == |schedule|
  {
    seq(|schedule|, i requires 0 <= i < |schedule| => RoundRow(plan, schedule[i].number))
  }

  // ----- what the database demands

  /** Rounds of an event: unique numbers, and an end after the start. */
  predicate RoundsAccepted(rows: seq<Row>) {
    && (forall i :: 0 <= i < |rows| ==> rows[i].startsAt < rows[i].endsAt)
    && (forall i, j :: 0 <= i < j < |rows| ==> rows[i].number != rows[j].number)
  }

  /** Ids are stored as UUIDs. */
  predicate SameId(parse: UuidParse, x: Pid, y: Pid) {
    parse(x) == parse(y)
  }

  /** Two pairs of an event: not the same couple, neither first nor second twice in a round, not one room. */
  predicate PairsCoexist(parse: UuidParse, p: StoredPair, q: StoredPair) {
    && !(SameId(parse, p.a, q.a) && SameId(parse, p.b, q.b))
    && (p.round == q.round ==> !SameId(parse, p.a, q.a) && !SameId(parse, p.b, q.b))
    && p.room != q.room
  }

  /** Pairs of an event: the smaller id first, fit to coexist, and in no room of another event. */
  predicate PairsAccepted(parse: UuidParse, rows: seq<StoredPair>, taken: set<string>) {
    && (forall i :: 0 <= i < |rows| ==> Below(parse, rows[i].a, rows[i].b) && rows[i].room !in taken)
    && (forall i, j :: 0 <= i < j < |rows| ==> PairsCoexist(parse, rows[i], rows[j]))
  }

  /** Everything that can make the transaction fail: an id or a number, or a constraint. */
  predicate Storable(parse: UuidParse, hash: RoomHash, plan: Plan, schedule: Schedule, taken: set<string>) {
    && NumbersStorable(schedule) && RoundsAccepted(TimeRows(plan, schedule))
    && AllReadable(parse, schedule) && PairsAccepted(parse, PairRows(parse, hash, schedule), taken)
  }

  /** The stored rounds and pairs of one event, and the room ids that other events have stored. */
  class EventStore {
    const event: string
    var rounds: seq<Row>
    var pairs: seq<StoredPair>
    var roomsElsewhere: set<string>

    constructor (event: string, roomsElsewhere: set<string>)
      ensures this.event == event && this.roomsElsewhere == roomsElsewhere && rounds == [] && pairs == []
    {
      this.event, this.roomsElsewhere := event, roomsElsewhere;
      rounds, pairs := [], [];
    }

    /** Replaces everything stored, or nothing when an id cannot be read or a constraint is broken. */
    method PersistSchedule(parse: UuidParse, eventHash: EventHash, plan: Plan, schedule: Schedule) returns (done: bool)
      modifies this`rounds, this`pairs
      ensures done <==> Storable(parse, ForEvent(eventHash, event), plan, schedule, roomsElsewhere)
      ensures !done ==> rounds == old(rounds) && pairs == old(pairs)
      ensures done ==> rounds == TimeRows(plan, schedule) && pairs == PairRows(parse, ForEvent(eventHash, event), schedule)
    {
      hide PairRows, RoundRows, RoundsAccepted, PairsAccepted, AllReadable;
      if !NumbersStorable(schedule) {
        return false;
      }
      var roundObjects := MakeRounds(plan, schedule);
      if !RoundsAccepted(roundObjects) {
        return false;
      }
      var made := MakePairs(parse, ForEvent(eventHash, event), schedule);
      if made.None? || !PairsAccepted(parse, made.value, roomsElsewhere) {
        return false;
      }
      rounds, pairs := roundObjects, made.value;
      return true;
    }
  }

  method MakeRounds(plan: Plan, schedule: Schedule) returns (roundObjects: seq<Row>)
    requires NumbersStorable(schedule)
    ensures roundObjects == TimeRows(plan, schedule)
  {
    var step := plan.roundDuration + plan.breakDuration;
    roundObjects := [];
    for i := 0 to |schedule|
      invariant |roundObjects| == i
      invariant forall j :: 0 <= j < i ==> roundObjects[j] == RoundRow(plan, schedule[j].number)
    {
      var startsAt := plan.startTime + (schedule[i].number - 1) * step;
      roundObjects := roundObjects + [Row(schedule[i].number, startsAt, startsAt + plan.roundDuration)];
    }
  }

  method MakePairs(parse: UuidParse, hash: RoomHash, schedule: Schedule) returns (made: Option<seq<StoredPair>>)
    ensures made == if AllReadable(parse, schedule) then Some(PairRows(parse, hash, schedule)) else None
  {
    var pairObjects: seq<StoredPair> := [];
    for i := 0 to |schedule|
      invariant AllReadable(parse, schedule[..i])
      invariant pairObjects == PairRows(parse, hash, schedule[..i])
    {
      var r := schedule[i];
      for k := 0 to |r.pairs|
        invariant forall j :: 0 <= j < k ==> Parses(parse, r.pairs[j].pidA) && Parses(parse, r.pairs[j].pidB)
        invariant pairObjects == PairRows(parse, hash, schedule[..i]) + RoundRows(parse, hash, r.(pairs := r.pairs[..k]), k)
      {
        var sp := r.pairs[k];
        if parse(sp.pidA).None? || parse(sp.pidB).None? {
          return None;
        }
        var pidA, pidB := sp.pidA, sp.pidB;
        if parse(pidA).value > parse(pidB).value {
          pidA, pidB := pidB, pidA;
        }
        assert RoundRows(parse, hash, r.(pairs := r.pairs[..k + 1]), k + 1)
            == RoundRows(parse, hash, r.(pairs := r.pairs[..k]), k) + [StoredPair(r.number, pidA, pidB, hash(r.number, pidA, pidB))];
        pairObjects := pairObjects + [StoredPair(r.number, pidA, pidB, hash(r.number, pidA, pidB))];
      }
      assert r.(pairs := r.pairs[..|r.pairs|]) == r;
      assert schedule[..i + 1][..i] == schedule[..i];
    }
    assert schedule[..|schedule|] == schedule;
    return Some(pairObjects);
  }

  // ----- what a valid schedule brings along

  /** Two rows of pairs that may stand in one event: different couples, and nobody twice in a round. */
  predicate RowsApart(p: StoredPair, q: StoredPair) {
    && !(p.a == q.a && p.b == q.b) && !(p.a == q.b && p.b == q.a)
    && (p.round == q.round ==> p.a != q.a && p.b != q.b && p.a != q.b && p.b != q.a)
  }

  /** Smaller id first, rows apart from each other, and a room id that only a hash collision can share. */
  ghost predicate Admissible(parse: UuidParse, hash: RoomHash, rows: seq<StoredPair>) {
    && (forall i :: 0 <= i < |rows| ==> rows[i].room == hash(rows[i].round, rows[i].a, rows[i].b))
    && (forall i :: 0 <= i < |rows| ==> Below(parse, rows[i].a, rows[i].b))
    && (forall i, j :: 0 <= i < j < |rows| ==> RowsApart(rows[i], rows[j]))
  }

  lemma ValidIsReadable(parse: UuidParse, schedule: Schedule)
    requires AllPresentable(parse, schedule)
    ensures AllReadable(parse, schedule)
  {
    forall i | 0 <= i < |schedule| ensures RoundReadable(parse, schedule[i]) {
      forall k | 0 <= k < |schedule[i].pairs| ensures Parses(parse, schedule[i].pairs[k].pidA) && Parses(parse, schedule[i].pairs[k].pidB) {
        assert Presentable(parse, schedule[i]);
        assert Below(parse, schedule[i].pairs[k].pidA, schedule[i].pairs[k].pidB);
      }
    }
  }

  /** The row comes from pair k of round r, its participants in the order the schedule has them. */
  predicate From(schedule: Schedule, hash: RoomHash, row: StoredPair, r: int, k: int) {
    && 0 <= r < |schedule| && 0 <= k < |schedule[r].pairs|
    && var sp := schedule[r].pairs[k];
    row == StoredPair(schedule[r].number, sp.pidA, sp.pidB, hash(schedule[r].number, sp.pidA, sp.pidB))
  }

  lemma RowIsFrom(parse: UuidParse, hash: RoomHash, schedule: Schedule, r: nat, k: nat)
    requires AllPresentable(parse, schedule) && AllReadable(parse, schedule) && r < |schedule| && k < |schedule[r].pairs|
    ensures From(schedule, hash, RoundRows(parse, hash, schedule[r], |schedule[r].pairs|)[k], r, k)
    ensures var sp := schedule[r].pairs[k]; Below(parse, sp.pidA, sp.pidB)
  {
    assert Presentable(parse, schedule[r]);
    assert Below(parse, schedule[r].pairs[k].pidA, schedule[r].pairs[k].pidB);
  }

  /** Storing a valid schedule swaps no pair and leaves none out: row by row it is the schedule. */
  lemma {:induction false} RowsAreThePairs(parse: UuidParse, hash: RoomHash, schedule: Schedule, i: nat) returns (r: nat, k: nat)
    requires AllPresentable(parse, schedule) && AllReadable(parse, schedule)
    requires i < |PairRows(parse, hash, schedule)|
    ensures From(schedule, hash, PairRows(parse, hash, schedule)[i], r, k)
    ensures schedule != [] && i >= |PairRows(parse, hash, schedule[..|schedule| - 1])| ==>
              r == |schedule| - 1 && k == i - |PairRows(parse, hash, schedule[..|schedule| - 1])|
    ensures schedule != [] && i < |PairRows(parse, hash, schedule[..|schedule| - 1])| ==> r < |schedule| - 1
  {
    var front := schedule[..|schedule| - 1];
    var before := PairRows(parse, hash, front);
    if i < |before| {
      r, k := RowsAreThePairs(parse, hash, front, i);
    } else {
      r, k := |schedule| - 1, i - |before|;
      RowIsFrom(parse, hash, schedule, r, k);
    }
  }

  /** What a sound schedule promises about any two of its pairs; it holds of its beginnings too. */
  ghost predicate PairsPartedIn(schedule: Schedule) {
    && NobodyMeetsTwice(schedule)
    && (forall i, j :: 0 <= i < j < |schedule| ==> schedule[i].number != schedule[j].number)
    && (forall r, k, l :: 0 <= r < |schedule| && 0 <= k < l < |schedule[r].pairs| ==>
          PairsApart(schedule[r].pairs[k], schedule[r].pairs[l]))
  }

  lemma PlacesApart(schedule: Schedule, hash: RoomHash, p: StoredPair, q: StoredPair, r: int, k: int, s: int, l: int)
    requires PairsPartedIn(schedule) && From(schedule, hash, p, r, k) && From(schedule, hash, q, s, l)
    requires r < s || (r == s && k < l)
    ensures RowsApart(p, q)
  {
    if r < s {
      assert !Together(schedule[r].pairs[k], schedule[s].pairs[l].pidA, schedule[s].pairs[l].pidB);
    } else {
      assert PairsApart(schedule[r].pairs[k], schedule[r].pairs[l]);
    }
  }

  lemma FrontParted(schedule: Schedule)
    requires PairsPartedIn(schedule) && schedule != []
    ensures PairsPartedIn(schedule[..|schedule| - 1])
  {
    var front := schedule[..|schedule| - 1];
    forall r, s, k, l | 0 <= r < s < |front| && 0 <= k < |front[r].pairs| && 0 <= l < |front[s].pairs|
      ensures !Together(front[r].pairs[k], front[s].pairs[l].pidA, front[s].pairs[l].pidB)
    {
      assert front[r] == schedule[r] && front[s] == schedule[s];
    }
  }

  lemma {:induction false} StoredRowsApart(parse: UuidParse, hash: RoomHash, schedule: Schedule, i: nat, j: nat)
    requires AllPresentable(parse, schedule) && AllReadable(parse, schedule) && PairsPartedIn(schedule)
    requires i < j < |PairRows(parse, hash, schedule)|
    ensures RowsApart(PairRows(parse, hash, schedule)[i], PairRows(parse, hash, schedule)[j])
  {
    hide RowsApart, PairsPartedIn, From, RoundReadable, Presentable;
    var front := schedule[..|schedule| - 1];
    var rows, before := PairRows(parse, hash, schedule), PairRows(parse, hash, front);
    if j < |before| {
      FrontParted(schedule);
      StoredRowsApart(parse, hash, front, i, j);
      assert rows[i] == before[i] && rows[j] == before[j];
    } else {
      var r, k := RowsAreThePairs(parse, hash, schedule, i);
      var s, l := RowsAreThePairs(parse, hash, schedule, j);
      PlacesApart(schedule, hash, rows[i], rows[j], r, k, s, l);
    }
  }

  lemma SoundIsParted(schedule: Schedule, pids: set<Pid>, numRounds: int)
    requires Sound(schedule, pids, numRounds)
    ensures PairsPartedIn(schedule)
  {
    forall r, k, l | 0 <= r < |schedule| && 0 <= k < l < |schedule[r].pairs|
      ensures PairsApart(schedule[r].pairs[k], schedule[r].pairs[l])
    {
      assert ExactlyOnce(schedule[r], pids);
    }
  }

  /** The rows of a valid schedule always meet what the database demands of the pairs of an event. */
  lemma ValidIsAdmissible(parse: UuidParse, hash: RoomHash, schedule: Schedule, pids: set<Pid>, numRounds: int)
    requires Valid(parse, schedule, pids, numRounds) && AllReadable(parse, schedule)
    ensures Admissible(parse, hash, PairRows(parse, hash, schedule))
  {
    hide RowsApart, Sound, PairsPartedIn, Presentable, RoundReadable, PairRows;
    SoundIsParted(schedule, pids, numRounds);
    var rows := PairRows(parse, hash, schedule);
    forall i | 0 <= i < |rows| ensures Below(parse, rows[i].a, rows[i].b) && rows[i].room == hash(rows[i].round, rows[i].a, rows[i].b) {
      var r, k := RowsAreThePairs(parse, hash, schedule, i);
      RowIsFrom(parse, hash, schedule, r, k);
    }
    forall i, j | 0 <= i < j < |rows| ensures RowsApart(rows[i], rows[j]) {
      StoredRowsApart(parse, hash, schedule, i, j);
    }
  }

  /** Room ids that collide neither with each other nor with those of other events. */
  ghost predicate RoomsFree(rows: seq<StoredPair>, taken: set<string>) {
    && (forall i :: 0 <= i < |rows| ==> rows[i].room !in taken)
    && (forall i, j :: 0 <= i < j < |rows| ==> rows[i].room != rows[j].room)
  }

  /** Participants have different UUIDs, being rows of their own. */
  predicate DifferentIds(parse: UuidParse, pids: set<Pid>) {
    forall x, y :: x in pids && y in pids && x != y ==> !SameId(parse, x, y)
  }

  lemma RowIdsAreKnown(parse: UuidParse, hash: RoomHash, schedule: Schedule, pids: set<Pid>, numRounds: int, i: nat)
    requires Valid(parse, schedule, pids, numRounds) && AllReadable(parse, schedule) && i < |PairRows(parse, hash, schedule)|
    ensures var row := PairRows(parse, hash, schedule)[i]; row.a in pids && row.b in pids
  {
    hide PairRows, RoundReadable, Presentable, NobodyMeetsTwice, NobodySitsOutTwice, NumberedOnce;
    var r, k := RowsAreThePairs(parse, hash, schedule, i);
    assert ExactlyOnce(schedule[r], pids);
  }

  lemma CoexistIff(parse: UuidParse, p: StoredPair, q: StoredPair, pids: set<Pid>)
    requires DifferentIds(parse, pids) && p.a in pids && p.b in pids && q.a in pids && q.b in pids && RowsApart(p, q)
    ensures PairsCoexist(parse, p, q) <==> p.room != q.room
  {
  }

  /**
   A valid schedule of an event with legal durations is always stored, unless the hash gives two of
   its pairs, or one of them and a pair of another event, the same room.
   */
  lemma ValidIsStorableIff(parse: UuidParse, hash: RoomHash, plan: Plan, schedule: Schedule, pids: set<Pid>, numRounds: int, taken: set<string>)
    requires Valid(parse, schedule, pids, numRounds) && DifferentIds(parse, pids) && plan.roundDuration > 0
    ensures AllReadable(parse, schedule)
    ensures Storable(parse, hash, plan, schedule, taken) <==> RoomsFree(PairRows(parse, hash, schedule), taken)
  {
    hide PairRows, RoundReadable, Presentable, RowsApart, PairsCoexist, Below, DifferentIds;
    ValidIsReadable(parse, schedule);
    ValidIsAdmissible(parse, hash, schedule, pids, numRounds);
    ValidRoundsAccepted(parse, plan, schedule, pids, numRounds);
    hide Valid;
    var rows := PairRows(parse, hash, schedule);
    forall i, j | 0 <= i < j < |rows| ensures PairsCoexist(parse, rows[i], rows[j]) <==> rows[i].room != rows[j].room {
      RowIdsAreKnown(parse, hash, schedule, pids, numRounds, i);
      RowIdsAreKnown(parse, hash, schedule, pids, numRounds, j);
      CoexistIff(parse, rows[i], rows[j], pids);
    }
  }

  lemma ValidRoundsAccepted(parse: UuidParse, plan: Plan, schedule: Schedule, pids: set<Pid>, numRounds: int)
    requires Valid(parse, schedule, pids, numRounds) && plan.roundDuration > 0
    ensures NumbersStorable(schedule) && RoundsAccepted(TimeRows(plan, schedule))
  {
    hide NobodyMeetsTwice, NobodySitsOutTwice, ExactlyOnce, AllPresentable;
  }

  // ----- the stored rounds as a timetable

  lemma RoundWithNumber(schedule: Schedule, numRounds: int, n: int) returns (i: nat)
    requires NumberedOnce(schedule, numRounds) && 1 <= n <= numRounds
    ensures i < |schedule| && schedule[i].number == n
  {
    NumberedOnceCovers(schedule, numRounds);
    UptoMember(n, numRounds);
    assert n in Validation.Numbers(schedule);
    var r :| r in schedule && r.number == n;
    i :| 0 <= i < |schedule| && schedule[i] == r;
  }

  ghost predicate HasNumber(table: seq<Row>, n: int) {
    exists k :: 0 <= k < |table| && table[k].number == n
  }

  /** Exactly the numbers from 1 to the number of rounds. */
  ghost predicate HoldsNumbers(table: seq<Row>, numRounds: int) {
    && (forall k :: 0 <= k < |table| ==> 1 <= table[k].number <= numRounds)
    && (forall n :: 1 <= n <= numRounds ==> HasNumber(table, n))
  }

  lemma {:induction false} NumberAt(table: seq<Row>, numRounds: int, i: nat)
    requires Listed(table) && i < |table| && HoldsNumbers(table, numRounds)
    ensures table[i].number == i + 1
    decreases i
  {
    forall k: nat | k < i ensures table[k].number == k + 1 {
      NumberAt(table, numRounds, k);
    }
    if i > 0 {
      assert table[i - 1].number < table[i].number;
    }
    assert HasNumber(table, i + 1);
    assert forall k :: i < k < |table| ==> table[i].number < table[k].number;
  }

  /**
   Whatever order a valid schedule lists its rounds in: read back in the order of their numbers,
   as the scheduler reads them, the stored rounds are the timetable in closed form, so they are
   contiguous and in time order and end when the event does.
   */
  lemma ReadBackIsTheTimetable(plan: Plan, schedule: Schedule, table: seq<Row>)
    requires NumberedOnce(schedule, plan.numRounds) && NumbersStorable(schedule)
    requires Listed(table) && forall row :: row in table <==> row in TimeRows(plan, schedule)
    ensures table == ClosedForm(plan)
  {
    var total := plan.numRounds;
    TableHoldsNumbers(plan, schedule, table);
    hide TimeRows, Listed, HoldsNumbers;
    forall i | 0 <= i < |table| ensures table[i] == RoundRow(plan, i + 1) {
      NumberAt(table, total, i);
    }
    NumbersFill(table, total);
    assert forall i :: 0 <= i < |table| ==> table[i] == ClosedForm(plan)[i];
  }

  lemma TableHoldsNumbers(plan: Plan, schedule: Schedule, table: seq<Row>)
    requires NumberedOnce(schedule, plan.numRounds) && NumbersStorable(schedule)
    requires forall row :: row in table <==> row in TimeRows(plan, schedule)
    ensures HoldsNumbers(table, plan.numRounds)
    ensures forall k :: 0 <= k < |table| ==> table[k] == RoundRow(plan, table[k].number)
  {
    var rows := TimeRows(plan, schedule);
    forall k | 0 <= k < |table| ensures 1 <= table[k].number <= plan.numRounds && table[k] == RoundRow(plan, table[k].number) {
      assert table[k] in rows;
    }
    forall n | 1 <= n <= plan.numRounds ensures HasNumber(table, n) {
      var i := RoundWithNumber(schedule, plan.numRounds, n);
      assert rows[i] in rows && rows[i] in table;
    }
  }

  lemma NumbersFill(table: seq<Row>, total: nat)
    requires HoldsNumbers(table, total) && forall i :: 0 <= i < |table| ==> table[i].number == i + 1
    ensures |table| == total
  {
    assert table != [] ==> table[|table| - 1].number == |table|;
    assert |table| < total ==> HasNumber(table, |table| + 1);
  }

  // ----- who is told about a pairing

  datatype Recipient = Recipient(participant: Pid, partner: Pid, room: string, offerer: bool)

  function OfRound(pairs: seq<StoredPair>, n: int): seq<StoredPair> {
    if pairs == [] then []
    else
      var last := pairs[|pairs| - 1];
      OfRound(pairs[..|pairs| - 1], n) + (if last.round == n then [last] else [])
  }

  /** The two sides of the stored pairs of a round: the first one makes the offer. */
  ghost predicate TellsBoth(f: seq<StoredPair>, told: seq<Recipient>) {
    && |told| == 2 * |f|
    && forall m :: 0 <= m < |f| ==>
         && told[2 * m] == Recipient(f[m].a, f[m].b, f[m].room, true)
         && told[2 * m + 1] == Recipient(f[m].b, f[m].a, f[m].room, false)
  }

  method SelectPairingRecipients(pairs: seq<StoredPair>, n: int) returns (told: seq<Recipient>)
    ensures TellsBoth(OfRound(pairs, n), told)
  {
    told := [];
    assert pairs[..0] == [];
    for i := 0 to |pairs|
      invariant TellsBoth(OfRound(pairs[..i], n), told)
    {
      assert pairs[..i + 1][..i] == pairs[..i];
      if pairs[i].round == n {
        told := told + [Recipient(pairs[i].a, pairs[i].b, pairs[i].room, true)];
        told := told + [Recipient(pairs[i].b, pairs[i].a, pairs[i].room, false)];
      }
    }
    assert pairs[..|pairs|] == pairs;
  }

  lemma {:induction false} OfRoundApart(pairs: seq<StoredPair>, n: int)
    requires forall i, j :: 0 <= i < j < |pairs| ==> RowsApart(pairs[i], pairs[j])
    ensures var f := OfRound(pairs, n);
            && (forall m :: 0 <= m < |f| ==> f[m] in pairs && f[m].round == n)
            && (forall i :: 0 <= i < |pairs| && pairs[i].round == n ==> pairs[i] in f)
            && (forall k, m :: 0 <= k < m < |f| ==> RowsApart(f[k], f[m]))
  {
    if pairs != [] {
      var front, last := pairs[..|pairs| - 1], pairs[|pairs| - 1];
      OfRoundApart(front, n);
      var f := OfRound(front, n);
      forall k | 0 <= k < |f| ensures RowsApart(f[k], last) {
        var i :| 0 <= i < |front| && front[i] == f[k];
        assert pairs[i] == f[k];
      }
      forall i | 0 <= i < |pairs| && pairs[i].round == n ensures pairs[i] in OfRound(pairs, n) {
        assert i < |front| ==> front[i] == pairs[i];
      }
    }
  }

  ghost predicate Told(told: seq<Recipient>, x: Pid) {
    exists i :: 0 <= i < |told| && told[i].participant == x
  }

  ghost predicate PairedInRound(pairs: seq<StoredPair>, n: int, x: Pid) {
    exists k :: 0 <= k < |pairs| && pairs[k].round == n && InRow(pairs[k], x)
  }

  lemma NobodyToldTwice(parse: UuidParse, hash: RoomHash, pairs: seq<StoredPair>, n: int, told: seq<Recipient>)
    requires Admissible(parse, hash, pairs) && TellsBoth(OfRound(pairs, n), told)
    ensures forall i, j :: 0 <= i < j < |told| ==> told[i].participant != told[j].participant
  {
    hide OfRound, TellsBoth;
    OfRoundApart(pairs, n);
    var f := OfRound(pairs, n);
    forall i, j | 0 <= i < j < |told| ensures told[i].participant != told[j].participant {
      SideOf(f, told, i);
      SideOf(f, told, j);
      SidesApart(parse, hash, pairs, f[i / 2]);
      assert i / 2 < j / 2 ==> RowsApart(f[i / 2], f[j / 2]);
    }
  }

  /** Exactly the participants in the stored pairs of the round are told. */
  lemma ToldIffPaired(parse: UuidParse, hash: RoomHash, pairs: seq<StoredPair>, n: int, told: seq<Recipient>, x: Pid)
    requires Admissible(parse, hash, pairs) && TellsBoth(OfRound(pairs, n), told)
    ensures Told(told, x) <==> PairedInRound(pairs, n, x)
  {
    hide OfRound, RowsApart;
    OfRoundApart(pairs, n);
    var f := OfRound(pairs, n);
    if Told(told, x) {
      var i: nat :| i < |told| && told[i].participant == x;
      SideOf(f, told, i);
      assert f[i / 2] in pairs && InRow(f[i / 2], x);
    }
    if PairedInRound(pairs, n, x) {
      var k :| 0 <= k < |pairs| && pairs[k].round == n && InRow(pairs[k], x);
      var m :| 0 <= m < |f| && f[m] == pairs[k];
      assert told[2 * m].participant == pairs[k].a && told[2 * m + 1].participant == pairs[k].b;
    }
  }

  /** Whoever is told of a partner has that partner told of them, in the same room, one of the two offering. */
  lemma PartnersAgree(f: seq<StoredPair>, told: seq<Recipient>, i: nat) returns (j: nat)
    requires TellsBoth(f, told) && i < |told|
    ensures j < |told| && told[j] == Recipient(told[i].partner, told[i].participant, told[i].room, !told[i].offerer)
  {
    j := if i % 2 == 0 then i + 1 else i - 1;
    SideOf(f, told, i);
    SideOf(f, told, j);
  }

  predicate InRow(p: StoredPair, x: Pid) {
    p.a == x || p.b == x
  }

  lemma SideOf(f: seq<StoredPair>, told: seq<Recipient>, i: nat)
    requires TellsBoth(f, told) && i < |told|
    ensures i / 2 < |f|
    ensures var p := f[i / 2];
            told[i] == if i % 2 == 0 then Recipient(p.a, p.b, p.room, true) else Recipient(p.b, p.a, p.room, false)
  {
    var m := i / 2;
    assert i == 2 * m || i == 2 * m + 1;
  }

  lemma SidesApart(parse: UuidParse, hash: RoomHash, pairs: seq<StoredPair>, p: StoredPair)
    requires Admissible(parse, hash, pairs) && p in pairs
    ensures p.a != p.b
  {
    var k :| 0 <= k < |pairs| && pairs[k] == p;
    assert Below(parse, pairs[k].a, pairs[k].b);
  }
}

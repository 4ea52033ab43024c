/**
 The lifecycle messages of an event: what a tick sends, each at most once, and in which order
 a whole run of ticks and operator actions sends them.
 */
module Dispatch {
  import opened Wrappers
  import opened Timetable
  import opened Operator

  datatype Note = Pairing(n: nat) | RoundStart(n: nat) | Warning(n: nat) | RoundEnd(n: nat) | EventEnded

  /** The deployment: which rounds have stored pairs, and how early the final warning is due. */
  datatype Setup = Setup(paired: set<nat>, finalSeconds: int)

  // ----- what one tick sends

  /** What is due in a phase, first to last. */
  function Due(r: Reading, finalSeconds: int): seq<Note> {
    if r.round.None? then (if r.phase == Completed then [EventEnded] else [])
    else
      var n := r.round.value.number;
      match r.phase
      case NotStarted => []
      case Preconnect => [Pairing(n)]
      case InRound =>
        [Pairing(n), RoundStart(n)]
        + if (if r.remaining.Some? then r.remaining.value else 0) <= finalSeconds * SECOND then [Warning(n)] else []
      case Break => [RoundEnd(n)]
      case Completed => [RoundEnd(n), EventEnded]
  }

  /** The message builders refuse round numbers outside 1..6; without pairs there is nothing to build. */
  predicate Builds(setup: Setup, note: Note) {
    match note
    case EventEnded => true
    case Pairing(n) => n !in setup.paired || 1 <= n <= 6
    case RoundStart(n) => n !in setup.paired || 1 <= n <= 6
    case Warning(n) => 1 <= n <= 6
    case RoundEnd(n) => 1 <= n <= 6
  }

  /** Sends what is due and new, up to the first message that cannot be built. */
  function Emit(setup: Setup, sent: seq<Note>, due: seq<Note>): seq<Note>
    decreases |due|
  {
    if due == [] then sent
    else if due[0] in sent then Emit(setup, sent, due[1..])
    else if !Builds(setup, due[0]) then sent
    else Emit(setup, sent + [due[0]], due[1..])
  }

  /** Something due was not sent. */
  predicate Missing(sent: seq<Note>, due: seq<Note>) {
    exists k :: 0 <= k < |due| && due[k] !in sent
  }

  // ----- the order of messages

  function Stage(m: Note): int {
    match m
    case Pairing(n) => 4 * n
    case RoundStart(n) => 4 * n + 1
    case Warning(n) => 4 * n + 2
    case RoundEnd(n) => 4 * n + 3
    case EventEnded => -1
  }

  /** By round, then pairing, start, warning, end; the end of the event after everything. */
  predicate Before(a: Note, b: Note) {
    !a.EventEnded? && (b.EventEnded? || Stage(a) < Stage(b))
  }

  ghost predicate InOrder(sent: seq<Note>) {
    forall i, j :: 0 <= i < j < |sent| ==> Before(sent[i], sent[j])
  }

  ghost predicate NoRepeats(sent: seq<Note>) {
    forall i, j :: 0 <= i < j < |sent| ==> sent[i] != sent[j]
  }

  lemma OrderMeansNoRepeats(sent: seq<Note>)
    requires InOrder(sent)
    ensures NoRepeats(sent)
  {
  }

  ghost predicate AllBefore(sent: seq<Note>, m: Note) {
    forall i :: 0 <= i < |sent| ==> Before(sent[i], m)
  }

  /** Each due message was sent already, or comes after all that was sent, or cannot be built. */
  ghost predicate Ready(setup: Setup, sent: seq<Note>, due: seq<Note>) {
    && InOrder(due)
    && (forall k :: 0 <= k < |due| && Builds(setup, due[k]) ==> due[k] in sent || AllBefore(sent, due[k]))
    && (forall j, k :: 0 <= j < k < |due| && due[k] in sent ==> due[j] in sent)
  }

  lemma {:induction false} EmitKeepsOrder(setup: Setup, sent: seq<Note>, due: seq<Note>)
    requires InOrder(sent) && Ready(setup, sent, due)
    ensures InOrder(Emit(setup, sent, due))
    decreases |due|
  {
    if due != [] {
      var rest := due[1..];
      if due[0] in sent {
        assert Ready(setup, sent, rest) by { ReadyRest(setup, sent, due); }
        EmitKeepsOrder(setup, sent, rest);
      } else if Builds(setup, due[0]) {
        assert Ready(setup, sent + [due[0]], rest) by { ReadyNext(setup, sent, due); }
        EmitKeepsOrder(setup, sent + [due[0]], rest);
      }
    }
  }

  lemma ReadyRest(setup: Setup, sent: seq<Note>, due: seq<Note>)
    requires Ready(setup, sent, due) && due != []
    ensures Ready(setup, sent, due[1..])
  {
  }

  lemma ReadyNext(setup: Setup, sent: seq<Note>, due: seq<Note>)
    requires Ready(setup, sent, due) && due != [] && due[0] !in sent
    ensures Ready(setup, sent + [due[0]], due[1..])
  {
    var rest := due[1..];
    forall k | 0 <= k < |rest|
      ensures rest[k] !in sent + [due[0]]
      ensures Builds(setup, rest[k]) ==> AllBefore(sent + [due[0]], rest[k])
    {
      assert rest[k] == due[k + 1];
    }
  }

  /** Whatever is due, nothing is sent twice and what was sent stays sent. */
  lemma {:induction false} EmitAppends(setup: Setup, sent: seq<Note>, due: seq<Note>)
    ensures var t := Emit(setup, sent, due);
            && |sent| <= |t| && t[..|sent|] == sent
            && (NoRepeats(sent) ==> NoRepeats(t))
            && (forall m :: m in sent ==> m in t)
            && (forall m :: m in t ==> m in sent || m in due)
    decreases |due|
  {
    if due != [] {
      if due[0] in sent {
        EmitAppends(setup, sent, due[1..]);
      } else if Builds(setup, due[0]) {
        EmitAppends(setup, sent + [due[0]], due[1..]);
      }
    }
  }

  /** A due message that was sent has those due before it sent too. */
  lemma {:induction false} EmitKeepsPrefix(setup: Setup, sent: seq<Note>, due: seq<Note>, j: nat, k: nat)
    requires j < k < |due| && due[k] in Emit(setup, sent, due)
    requires due[k] in sent ==> due[j] in sent
    requires NoRepeats(due)
    ensures due[j] in Emit(setup, sent, due)
    decreases |due|
  {
    EmitAppends(setup, sent, due);
    if due[0] in sent {
      if j > 0 { EmitKeepsPrefix(setup, sent, due[1..], j - 1, k - 1); }
    } else if Builds(setup, due[0]) {
      EmitAppends(setup, sent + [due[0]], due[1..]);
      if j > 0 { EmitKeepsPrefix(setup, sent + [due[0]], due[1..], j - 1, k - 1); }
    }
  }

  // ----- what is due, told from the table

  /** Round k is the first that is not over. */
  ghost predicate Current(rows: seq<Row>, t: int, k: int) {
    0 <= k < |rows| && t < rows[k].endsAt && forall i :: 0 <= i < k ==> rows[i].endsAt <= t
  }

  /**
   Which message falls due at a moment: the pairing from the lead before the round on, the start
   while the round runs, the warning when it runs out, the end in the break after it or after
   the last round, and the end of the event from then on.
   */
  ghost predicate FallsDue(setup: Setup, rows: seq<Row>, t: int, x: Note) {
    match x
    case Pairing(n) => exists k :: Current(rows, t, k) && rows[k].number == n && rows[k].startsAt - LEAD <= t
    case RoundStart(n) => exists k :: Current(rows, t, k) && rows[k].number == n && rows[k].startsAt <= t
    case Warning(n) =>
      exists k :: Current(rows, t, k) && rows[k].number == n && rows[k].startsAt <= t
                  && rows[k].endsAt - t <= setup.finalSeconds * SECOND
    case RoundEnd(n) =>
      exists k :: 0 <= k < |rows| && rows[k].number == n && rows[k].endsAt <= t && BreakAfter(rows, k, t)
    case EventEnded => rows != [] && rows[|rows| - 1].endsAt <= t
  }

  /** The next preconnect, if there is one, has not begun. */
  predicate BreakAfter(rows: seq<Row>, k: int, t: int)
    requires 0 <= k < |rows|
  {
    k == |rows| - 1 || t < rows[k + 1].startsAt - LEAD
  }

  lemma CurrentIs(rows: seq<Row>, t: int, k: int)
    requires Ordered(rows)
    ensures Current(rows, t, k) <==> k == Ended(rows, t) < |rows|
  {
    EndedIsPrefix(rows, t);
  }

  lemma BreakIs(rows: seq<Row>, t: int, k: int)
    requires Ordered(rows) && 0 <= k < |rows|
    ensures rows[k].endsAt <= t && BreakAfter(rows, k, t) <==>
            Ended(rows, t) == k + 1 && (k == |rows| - 1 || t < rows[k + 1].startsAt - LEAD)
  {
    EndedIsPrefix(rows, t);
    assert k + 1 < |rows| ==> rows[k + 1].startsAt < rows[k + 1].endsAt;
  }

  /** What the tick takes to be due is exactly what falls due by the table. */
  lemma DueIff(setup: Setup, rows: seq<Row>, t: int, x: Note)
    requires Ordered(rows) && Contiguous(rows)
    ensures x in Due(PhaseAt(rows, LEAD, t), setup.finalSeconds) <==> FallsDue(setup, rows, t, x)
  {
    hide Current, Ended, Ordered, Contiguous, PhaseAt, Due, BreakAfter, FallsDue;
    DueByPlace(setup, rows, t, x);
    var k := Ended(rows, t);
    if x.RoundEnd? {
      EndFallsDue(setup, rows, t, x.n);
    } else if x.EventEnded? {
      EventFallsDue(setup, rows, t);
    } else {
      RoundFallsDue(setup, rows, t, x);
    }
  }

  lemma RoundFallsDue(setup: Setup, rows: seq<Row>, t: int, x: Note)
    requires Ordered(rows) && !x.EventEnded? && !x.RoundEnd?
    ensures var k := Ended(rows, t);
            FallsDue(setup, rows, t, x) <==>
              k < |rows| && rows[k].number == x.n && rows[k].startsAt - (if x.Pairing? then LEAD else 0) <= t
              && (x.Warning? ==> rows[k].endsAt - t <= setup.finalSeconds * SECOND)
  {
    hide Current, Ended, Ordered;
    forall i ensures Current(rows, t, i) <==> i == Ended(rows, t) < |rows| { CurrentIs(rows, t, i); }
  }

  lemma EndFallsDue(setup: Setup, rows: seq<Row>, t: int, n: nat)
    requires Ordered(rows)
    ensures var k := Ended(rows, t);
            0 <= k <= |rows| &&
            (FallsDue(setup, rows, t, RoundEnd(n)) <==>
             k > 0 && rows[k - 1].number == n && (k == |rows| || t < rows[k].startsAt - LEAD))
  {
    EndedIsPrefix(rows, t);
    hide Ended, Ordered, BreakAfter;
    var k := Ended(rows, t);
    forall i | 0 <= i < |rows| ensures rows[i].endsAt <= t && BreakAfter(rows, i, t) <==>
        k == i + 1 && (i == |rows| - 1 || t < rows[i + 1].startsAt - LEAD) { BreakIs(rows, t, i); }
    if k > 0 && rows[k - 1].number == n && (k == |rows| || t < rows[k].startsAt - LEAD) {
      assert rows[k - 1].endsAt <= t && BreakAfter(rows, k - 1, t);
    }
  }

  lemma EventFallsDue(setup: Setup, rows: seq<Row>, t: int)
    requires Ordered(rows)
    ensures FallsDue(setup, rows, t, EventEnded) <==> rows != [] && Ended(rows, t) == |rows|
  {
    EndedIsPrefix(rows, t);
    hide Ended;
  }

  /** The same with the number of rounds that are over. */
  lemma DueByPlace(setup: Setup, rows: seq<Row>, t: int, x: Note)
    requires Ordered(rows)
    ensures var k := Ended(rows, t); var due := Due(PhaseAt(rows, LEAD, t), setup.finalSeconds);
            && 0 <= k <= |rows|
            && match x {
               case Pairing(n) => x in due <==> k < |rows| && rows[k].number == n && rows[k].startsAt - LEAD <= t
               case RoundStart(n) => x in due <==> k < |rows| && rows[k].number == n && rows[k].startsAt <= t
               case Warning(n) => x in due <==> k < |rows| && rows[k].number == n && rows[k].startsAt <= t
                                                && rows[k].endsAt - t <= setup.finalSeconds * SECOND
               case RoundEnd(n) => x in due <==> k > 0 && rows[k - 1].number == n && (k == |rows| || t < rows[k].startsAt - LEAD)
               case EventEnded => x in due <==> rows != [] && k == |rows|
               }
  {
    EndedIsPrefix(rows, t);
    hide Ended, Ordered;
  }

  // ----- what a tick sends of it

  /** A message that the builders refuse: a round outside 1..6, unless it has no pair to be told. */
  predicate Unbuildable(setup: Setup, x: Note) {
    !x.EventEnded? && (x.n < 1 || x.n > 6) && (x.Warning? || x.RoundEnd? || x.n in setup.paired)
  }

  /** Sent by a tick: due and not refused, and the end of the event only after the end of its last round. */
  ghost predicate Sends(setup: Setup, rows: seq<Row>, t: int, sent: seq<Note>, x: Note) {
    && FallsDue(setup, rows, t, x) && !Unbuildable(setup, x)
    && (x.EventEnded? ==> rows != [] && var e := RoundEnd(LastNumber(rows)); e in sent || !Unbuildable(setup, e))
  }

  /** After a tick exactly those messages are sent that were before or that it sends. */
  lemma TickSendsExactly(setup: Setup, rows: seq<Row>, t: int, sent: seq<Note>, x: Note)
    requires Ordered(rows) && Contiguous(rows)
    ensures x in Emit(setup, sent, Due(PhaseAt(rows, LEAD, t), setup.finalSeconds)) <==> x in sent || Sends(setup, rows, t, sent, x)
  {
    hide FallsDue, Emit, Due, PhaseAt;
    DueIff(setup, rows, t, x);
    var r := PhaseAt(rows, LEAD, t);
    var due := Due(r, setup.finalSeconds);
    EmitAppends(setup, sent, due);
    if x in due && x !in sent {
      ReadingNames(rows, t);
      SentIff(setup, sent, r, x);
    }
  }

  lemma ReadingParts(rows: seq<Row>, t: int)
    requires Ordered(rows)
    ensures var r := PhaseAt(rows, LEAD, t);
            && (!r.phase.NotStarted? ==> r.round.Some?) && (r.phase.InRound? ==> r.remaining.Some?)
            && (r.phase.NotStarted? ==> r.round.None?)
  {
    EndedIsPrefix(rows, t);
  }

  lemma ReadingNames(rows: seq<Row>, t: int)
    ensures var r := PhaseAt(rows, LEAD, t);
            && (r.phase.Completed? ==> rows != [] && r.round.Some? && r.round.value.number == LastNumber(rows))
            && (forall f :: r.round.None? ==> Due(r, f) == [])
            && (forall f :: EventEnded in Due(r, f) ==> r.phase.Completed?)
  {
  }

  lemma SentIff(setup: Setup, sent: seq<Note>, r: Reading, x: Note)
    requires x in Due(r, setup.finalSeconds) && x !in sent && r.round.Some?
    ensures x in Emit(setup, sent, Due(r, setup.finalSeconds)) <==>
            !Unbuildable(setup, x) && (x.EventEnded? ==> var e := RoundEnd(r.round.value.number); e in sent || !Unbuildable(setup, e))
  {
    hide Emit, Due, Unbuildable;
    var k := PlaceOf(x);
    DuePlaces(r, setup.finalSeconds, x);
    EmitIffPassed(setup, sent, Due(r, setup.finalSeconds), k);
    SameRange(setup, r.round.value.number);
  }

  /** Where in its list a message stands. */
  function PlaceOf(x: Note): nat {
    match x
    case Pairing(_) => 0
    case RoundStart(_) => 1
    case Warning(_) => 2
    case RoundEnd(_) => 0
    case EventEnded => 1
  }

  lemma DuePlaces(r: Reading, finalSeconds: int, x: Note)
    requires x in Due(r, finalSeconds) && r.round.Some?
    ensures var due := Due(r, finalSeconds); var k := PlaceOf(x); var n := r.round.value.number;
            && (forall i, j :: 0 <= i < j < |due| ==> due[i] != due[j])
            && k < |due| && due[k] == x && (!x.EventEnded? ==> x.n == n)
            && (x.EventEnded? ==> due[0] == RoundEnd(n))
            && (x.RoundStart? || x.Warning? ==> due[0] == Pairing(n))
            && (x.Warning? ==> due[1] == RoundStart(n))
  {
  }

  lemma SameRange(setup: Setup, n: nat)
    ensures Unbuildable(setup, Pairing(n)) <==> Unbuildable(setup, RoundStart(n))
    ensures Unbuildable(setup, Pairing(n)) ==> Unbuildable(setup, Warning(n))
    ensures !Unbuildable(setup, EventEnded)
  {
  }

  predicate Passes(setup: Setup, sent: seq<Note>, x: Note) {
    x in sent || !Unbuildable(setup, x)
  }

  /** A due message is sent if neither it nor one due before it is refused. */
  lemma {:induction false} EmitIffPassed(setup: Setup, sent: seq<Note>, due: seq<Note>, k: nat)
    requires k < |due| && forall i, j :: 0 <= i < j < |due| ==> due[i] != due[j]
    ensures due[k] in Emit(setup, sent, due) <==>
            due[k] in sent || forall j :: 0 <= j <= k ==> Passes(setup, sent, due[j])
    decreases k
  {
    hide Emit, Unbuildable;
    EmitHead(setup, sent, due);
    if Passes(setup, sent, due[0]) && k > 0 {
      var one := if due[0] in sent then sent else sent + [due[0]];
      var rest := due[1..];
      EmitIffPassed(setup, one, rest, k - 1);
      forall j | 0 <= j < k ensures Passes(setup, one, rest[j]) <==> Passes(setup, sent, due[j + 1]) {
        assert rest[j] == due[j + 1] != due[0];
      }
      PassesShift(setup, sent, one, due, k);
    }
  }

  lemma PassesShift(setup: Setup, sent: seq<Note>, one: seq<Note>, due: seq<Note>, k: nat)
    requires 0 < k < |due| && Passes(setup, sent, due[0])
    requires forall j :: 0 <= j < k ==> (Passes(setup, one, due[1..][j]) <==> Passes(setup, sent, due[j + 1]))
    ensures (forall j :: 0 <= j <= k ==> Passes(setup, sent, due[j])) <==> (forall j :: 0 <= j <= k - 1 ==> Passes(setup, one, due[1..][j]))
  {
    hide Passes;
    if forall j :: 0 <= j <= k - 1 ==> Passes(setup, one, due[1..][j]) {
      forall j | 0 <= j <= k ensures Passes(setup, sent, due[j]) {
        if j > 0 { assert Passes(setup, one, due[1..][j - 1]); }
      }
    }
  }

  /** The first due message is sent if it passes, and nothing is if it does not. */
  lemma EmitHead(setup: Setup, sent: seq<Note>, due: seq<Note>)
    requires due != []
    ensures var one := if due[0] in sent then sent else sent + [due[0]];
            && (!Passes(setup, sent, due[0]) ==> Emit(setup, sent, due) == sent)
            && (Passes(setup, sent, due[0]) ==> Emit(setup, sent, due) == Emit(setup, one, due[1..]) && due[0] in Emit(setup, sent, due))
  {
    var one := if due[0] in sent then sent else sent + [due[0]];
    EmitAppends(setup, one, due[1..]);
  }

  // ----- the orchestrator

  class OrchestratorRealtime {
    const isLeader: bool
    const setup: Setup
    var rows: seq<Row>
    var marked: set<Note>
    var transcript: seq<Note>

    constructor (rows: seq<Row>, setup: Setup, isLeader: bool)
      requires Ordered(rows) && Contiguous(rows)
      ensures Valid() && this.rows == rows && this.setup == setup && this.isLeader == isLeader && transcript == []
    {
      this.rows, this.setup, this.isLeader := rows, setup, isLeader;
      marked, transcript := {}, [];
    }

    /** Marked in the shared cache is exactly what was sent. */
    ghost predicate Valid()
      reads this
    {
      Ordered(rows) && Contiguous(rows) && forall m :: m in marked <==> m in transcript
    }

    /** Sends and marks a message that was not marked before; a message that cannot be built raises. */
    method SendOnce(note: Note) returns (raised: bool)
      requires Valid()
      modifies this`marked, this`transcript
      ensures Valid()
      ensures raised == (note !in old(transcript) && !Builds(setup, note))
      ensures transcript == if raised || note in old(transcript) then old(transcript) else old(transcript) + [note]
    {
      if note in marked {
        return false;
      }
      if !Builds(setup, note) {
        return true;
      }
      transcript := transcript + [note];
      marked := marked + {note};
      return false;
    }

    method SendAll(due: seq<Note>) returns (raised: bool)
      requires Valid()
      modifies this`marked, this`transcript
      ensures Valid() && transcript == Emit(setup, old(transcript), due)
      ensures raised <==> Missing(transcript, due)
    {
      for i := 0 to |due|
        invariant Valid()
        invariant Emit(setup, transcript, due[i..]) == Emit(setup, old(transcript), due)
        invariant forall k :: 0 <= k < i ==> due[k] in transcript
      {
        assert due[i..][1..] == due[i + 1..] && due[i..][0] == due[i];
        ghost var was := transcript;
        raised := SendOnce(due[i]);
        if raised {
          assert transcript == was && due[i] !in was;
          return;
        }
      }
      return false;
    }

    /** One tick: only the leader sends, and only what is due at that moment and new. */
    method DispatchTick(now: int) returns (raised: bool)
      requires Valid()
      modifies this`marked, this`transcript
      ensures Valid()
      ensures transcript == if isLeader then Emit(setup, old(transcript), Due(PhaseAt(rows, LEAD, now), setup.finalSeconds))
                            else old(transcript)
      ensures raised <==> isLeader && Missing(transcript, Due(PhaseAt(rows, LEAD, now), setup.finalSeconds))
      // told from the table: what is in the transcript now, and that only a refused message raises
      ensures forall x :: x in transcript <==> x in old(transcript) || (isLeader && Sends(setup, rows, now, old(transcript), x))
      ensures isLeader && !raised ==> forall x :: FallsDue(setup, rows, now, x) ==> x in transcript
      ensures raised ==> exists x :: FallsDue(setup, rows, now, x) && Unbuildable(setup, x) && x !in transcript
    {
      hide FallsDue, Sends, Unbuildable, PhaseAt;
      if isLeader {
        TickToldFromTable(setup, rows, now, transcript);
      }
      raised := SendWhatIsDue(now);
    }

    method SendWhatIsDue(now: int) returns (raised: bool)
      requires Valid()
      modifies this`marked, this`transcript
      ensures Valid()
      ensures transcript == if isLeader then Emit(setup, old(transcript), Due(PhaseAt(rows, LEAD, now), setup.finalSeconds))
                            else old(transcript)
      ensures raised <==> isLeader && Missing(transcript, Due(PhaseAt(rows, LEAD, now), setup.finalSeconds))
    {
      hide PhaseAt, FirstMatch, Ordered, Contiguous, Emit, Missing;
      if !isLeader {
        return false;
      }
      var r := GetCurrentPhase(rows, LEAD, now);
      ReadingParts(rows, now);
      match r.phase
      case NotStarted => raised := SendAll([]);
      case Preconnect => raised := SendAll([Pairing(r.round.value.number)]);
      case InRound =>
        var n := r.round.value.number;
        var final := if r.remaining.value <= setup.finalSeconds * SECOND then [Warning(n)] else [];
        raised := SendAll([Pairing(n), RoundStart(n)] + final);
      case Break => raised := SendAll([RoundEnd(r.round.value.number)]);
      case Completed => raised := SendAll([RoundEnd(r.round.value.number), EventEnded]);
    }
  }

  lemma TickToldFromTable(setup: Setup, rows: seq<Row>, now: int, sent: seq<Note>)
    requires Ordered(rows) && Contiguous(rows)
    ensures var due := Due(PhaseAt(rows, LEAD, now), setup.finalSeconds); var after := Emit(setup, sent, due);
            && (forall x :: x in after <==> x in sent || Sends(setup, rows, now, sent, x))
            && (!Missing(after, due) ==> forall x :: FallsDue(setup, rows, now, x) ==> x in after)
            && (Missing(after, due) ==> exists x :: FallsDue(setup, rows, now, x) && Unbuildable(setup, x) && x !in after)
  {
    hide FallsDue, Emit, Due, PhaseAt, Unbuildable;
    var due := Due(PhaseAt(rows, LEAD, now), setup.finalSeconds);
    forall x ensures x in due <==> FallsDue(setup, rows, now, x) { DueIff(setup, rows, now, x); }
    forall x ensures x in Emit(setup, sent, due) <==> x in sent || Sends(setup, rows, now, sent, x) {
      TickSendsExactly(setup, rows, now, sent, x);
    }
    var after := Emit(setup, sent, due);
    if Missing(after, due) {
      var k :| 0 <= k < |due| && due[k] !in after;
      var x := due[k];
      if !Unbuildable(setup, x) {
        assert x.EventEnded?;
        EndIsDueToo(setup, rows, now);
        assert rows != [] && RoundEnd(LastNumber(rows)) !in after;
      }
    }
  }

  lemma EndIsDueToo(setup: Setup, rows: seq<Row>, now: int)
    ensures FallsDue(setup, rows, now, EventEnded) ==> rows != [] && FallsDue(setup, rows, now, RoundEnd(LastNumber(rows)))
  {
    if FallsDue(setup, rows, now, EventEnded) {
      var k := |rows| - 1;
      assert rows[k].number == LastNumber(rows) && BreakAfter(rows, k, now);
    }
  }

  // ----- runs

  /** Ticks and operator actions, each at its own moment. */
  datatype Happening = Tick(now: int) | Operate(act: Act)

  function TimeOf(h: Happening): int {
    match h
    case Tick(now) => now
    case Operate(act) => act.now
  }

  datatype World = World(desk: Desk, clock: int, sent: seq<Note>)

  function Step(setup: Setup, w: World, h: Happening): World {
    match h
    case Tick(now) =>
      w.(clock := now, sent := Emit(setup, w.sent, Due(PhaseAt(w.desk.rows, LEAD, now), setup.finalSeconds)))
    case Operate(act) => w.(clock := act.now, desk := Apply(w.desk, act))
  }

  function Run(setup: Setup, w: World, hs: seq<Happening>): World {
    if hs == [] then w else Step(setup, Run(setup, w, hs[..|hs| - 1]), hs[|hs| - 1])
  }

  // ----- which messages are still to come

  ghost predicate InTable(rows: seq<Row>, n: nat) {
    rows != [] && 0 <= n - rows[0].number < |rows|
  }

  /** A message that some moment makes due: a warning needs a lead, an end needs a break or the end of the event. */
  ghost predicate CanFallDue(setup: Setup, rows: seq<Row>, x: Note) {
    match x
    case EventEnded => rows != []
    case Pairing(n) => InTable(rows, n)
    case RoundStart(n) => InTable(rows, n)
    case Warning(n) => InTable(rows, n) && setup.finalSeconds >= 1
    case RoundEnd(n) =>
      InTable(rows, n) &&
      var k := n - rows[0].number;
      k == |rows| - 1 || rows[k].endsAt < rows[k + 1].startsAt - LEAD
  }

  predicate FromRound(n: nat, x: Note) {
    x.EventEnded? || x.n >= n
  }

  function DueAt(setup: Setup, rows: seq<Row>, t: int): seq<Note> {
    Due(PhaseAt(rows, LEAD, t), setup.finalSeconds)
  }

  /** While round n runs, what can still fall due is what its table makes possible from round n on. */
  lemma ComingIsPossible(setup: Setup, rows: seq<Row>, now: int, t: int, x: Note)
    requires Ordered(rows) && Contiguous(rows) && now <= t && PhaseAt(rows, LEAD, now).phase == InRound
    requires x in DueAt(setup, rows, t)
    ensures CanFallDue(setup, rows, x)
    ensures PhaseAt(rows, LEAD, now).round.Some? && FromRound(PhaseAt(rows, LEAD, now).round.value.number, x)
  {
    EndedIsPrefix(rows, now);
    EndedIsPrefix(rows, t);
    EndedIsMonotone(rows, now, t);
    hide Ended;
  }

  lemma PossibleIsComing(setup: Setup, rows: seq<Row>, now: int, x: Note) returns (t: int)
    requires Ordered(rows) && Contiguous(rows) && PhaseAt(rows, LEAD, now).phase == InRound
    requires PhaseAt(rows, LEAD, now).round.Some? && FromRound(PhaseAt(rows, LEAD, now).round.value.number, x)
    requires CanFallDue(setup, rows, x)
    ensures now <= t && x in DueAt(setup, rows, t)
  {
    InRoundIsEnded(rows, now);
    var k := Ended(rows, now);
    hide PhaseAt, Ended;
    if x.EventEnded? || (x.RoundEnd? && x.n - rows[0].number == |rows| - 1) {
      t := FinalMoment(setup, rows, now);
    } else {
      var i := x.n - rows[0].number;
      assert i >= k;
      assert i > k ==> rows[k].endsAt <= rows[i].startsAt;
      t := MomentOf(setup, rows, i, x);
    }
  }

  lemma FinalMoment(setup: Setup, rows: seq<Row>, now: int) returns (t: int)
    requires Ordered(rows) && Contiguous(rows) && rows != []
    ensures now <= t && EventEnded in DueAt(setup, rows, t) && RoundEnd(rows[0].number + |rows| - 1) in DueAt(setup, rows, t)
  {
    var end := rows[|rows| - 1].endsAt;
    t := if now < end then end else now;
    EndedIsPrefix(rows, t);
  }

  lemma MomentOf(setup: Setup, rows: seq<Row>, i: nat, x: Note) returns (t: int)
    requires Ordered(rows) && Contiguous(rows) && i < |rows| && !x.EventEnded? && x.n == rows[0].number + i
    requires CanFallDue(setup, rows, x) && (x.RoundEnd? ==> i < |rows| - 1)
    ensures rows[i].endsAt - 1 <= t && x in DueAt(setup, rows, t)
  {
    if x.RoundEnd? {
      t := rows[i].endsAt;
      FirstOpenRound(rows, t, i + 1);
    } else {
      t := rows[i].endsAt - 1;
      FirstOpenRound(rows, t, i);
    }
  }

  lemma ShiftKeepsPossible(setup: Setup, rows: seq<Row>, n: nat, d: int, x: Note)
    requires Contiguous(rows)
    ensures CanFallDue(setup, ShiftFrom(rows, n, d), x) <==> CanFallDue(setup, rows, x)
  {
  }

  // ----- what may be resumed

  /** Every message still possible from round n on was sent, or is later than all that was sent. */
  ghost predicate NothingSkipped(setup: Setup, rows: seq<Row>, n: nat, sent: seq<Note>) {
    forall x :: CanFallDue(setup, rows, x) && FromRound(n, x) && Builds(setup, x) ==> x in sent || AllBefore(sent, x)
  }

  /** Time does not go back, and a round is resumed only when no message from it on was skipped. */
  ghost predicate Timely(setup: Setup, w: World, h: Happening) {
    && w.clock <= TimeOf(h)
    && (h.Operate? && h.act.Resume? && PausedNow(w.desk) ==>
          NothingSkipped(setup, w.desk.rows, w.desk.log[|w.desk.log| - 1].round, w.sent))
  }

  ghost predicate TimelyRun(setup: Setup, w: World, hs: seq<Happening>) {
    hs == [] || (TimelyRun(setup, w, hs[..|hs| - 1]) && Timely(setup, Run(setup, w, hs[..|hs| - 1]), hs[|hs| - 1]))
  }

  // ----- the ordering theorem

  /** Whatever falls due from now on was sent, or is later than all that was sent. */
  ghost predicate NoneMissed(setup: Setup, rows: seq<Row>, now: int, sent: seq<Note>) {
    forall t, x :: now <= t && x in DueAt(setup, rows, t) && Builds(setup, x) ==> x in sent || AllBefore(sent, x)
  }

  /** x is sent before y whenever y is: the stages of a round, and its last end before the event's. */
  predicate Precedes(x: Note, y: Note, last: nat) {
    match y
    case RoundStart(n) => x == Pairing(n)
    case Warning(n) => x == RoundStart(n) || x == Pairing(n)
    case EventEnded => x == RoundEnd(last)
    case _ => false
  }

  ghost predicate Closed(sent: seq<Note>, last: nat) {
    forall x, y :: y in sent && Precedes(x, y, last) ==> x in sent
  }

  function LastNumber(rows: seq<Row>): nat
    requires rows != []
  {
    rows[|rows| - 1].number
  }

  /** A pause that is still the last action was made by this time. */
  predicate PausedBy(d: Desk, clock: int) {
    PausedNow(d) ==> d.log[|d.log| - 1].at <= clock
  }

  ghost predicate SentWell(setup: Setup, w: World) {
    && Operator.Inv(w.desk) && w.desk.rows != []
    && InOrder(w.sent) && Closed(w.sent, LastNumber(w.desk.rows))
    && NoneMissed(setup, w.desk.rows, w.clock, w.sent)
    && PausedBy(w.desk, w.clock)
  }

  lemma DueIsInOrder(r: Reading, finalSeconds: int)
    ensures InOrder(Due(r, finalSeconds))
  {
  }

  lemma DueIsClosed(setup: Setup, rows: seq<Row>, t: int, j: nat, k: nat)
    requires rows != [] && j < k < |DueAt(setup, rows, t)|
    ensures Precedes(DueAt(setup, rows, t)[j], DueAt(setup, rows, t)[k], LastNumber(rows))
  {
  }

  lemma DueHasPredecessors(setup: Setup, rows: seq<Row>, t: int, x: Note, k: nat) returns (j: nat)
    requires rows != [] && k < |DueAt(setup, rows, t)| && Precedes(x, DueAt(setup, rows, t)[k], LastNumber(rows))
    ensures j < k && DueAt(setup, rows, t)[j] == x
  {
    j := if x == DueAt(setup, rows, t)[0] then 0 else 1;
  }

  /** What falls due later comes later, but for what should have come before. */
  lemma LaterDueIsLater(setup: Setup, rows: seq<Row>, now: int, t: int, y: Note, x: Note)
    requires Ordered(rows) && Contiguous(rows) && rows != [] && now <= t
    requires y in DueAt(setup, rows, now) && x in DueAt(setup, rows, t)
    ensures Before(y, x) || x == y || Precedes(x, y, LastNumber(rows))
  {
    hide Ended, Due, PhaseAt, Ordered, Contiguous;
    EndedIsMonotone(rows, now, t);
    DueByPlace(setup, rows, now, y);
    DueByPlace(setup, rows, t, x);
    NumbersByPlace(rows);
    StartsGrow(rows);
  }

  lemma NumbersByPlace(rows: seq<Row>)
    requires Contiguous(rows)
    ensures forall i :: 0 <= i < |rows| ==> rows[i].number == rows[0].number + i
  {
  }

  lemma StartsGrow(rows: seq<Row>)
    requires Ordered(rows)
    ensures forall i :: 0 <= i < |rows| ==> rows[i].startsAt < rows[i].endsAt
  {
  }

  lemma TickIsReady(setup: Setup, rows: seq<Row>, now: int, sent: seq<Note>)
    requires rows != [] && Closed(sent, LastNumber(rows)) && NoneMissed(setup, rows, now, sent)
    ensures Ready(setup, sent, DueAt(setup, rows, now))
  {
    hide Due, PhaseAt, Precedes;
    var due := DueAt(setup, rows, now);
    DueIsInOrder(PhaseAt(rows, LEAD, now), setup.finalSeconds);
    forall j, k | 0 <= j < k < |due| && due[k] in sent ensures due[j] in sent {
      DueIsClosed(setup, rows, now, j, k);
    }
  }

  lemma EmitKeepsClosed(setup: Setup, rows: seq<Row>, now: int, sent: seq<Note>)
    requires rows != [] && Closed(sent, LastNumber(rows))
    ensures Closed(Emit(setup, sent, DueAt(setup, rows, now)), LastNumber(rows))
  {
    hide Due, PhaseAt, Precedes, Emit, InOrder;
    var due := DueAt(setup, rows, now);
    var after := Emit(setup, sent, due);
    var last := LastNumber(rows);
    EmitAppends(setup, sent, due);
    DueIsInOrder(PhaseAt(rows, LEAD, now), setup.finalSeconds);
    OrderMeansNoRepeats(due);
    forall x, y | y in after && Precedes(x, y, last) ensures x in after {
      if y !in sent {
        var k: nat :| k < |due| && due[k] == y;
        var j := DueHasPredecessors(setup, rows, now, x, k);
        EmitKeepsPrefix(setup, sent, due, j, k);
      }
    }
  }

  lemma EmitMissesNone(setup: Setup, rows: seq<Row>, now: int, sent: seq<Note>)
    requires Ordered(rows) && Contiguous(rows) && rows != []
    requires Closed(sent, LastNumber(rows)) && NoneMissed(setup, rows, now, sent)
    ensures NoneMissed(setup, rows, now, Emit(setup, sent, DueAt(setup, rows, now)))
  {
    hide Due, PhaseAt, Precedes, Emit, Before, Ordered, Contiguous;
    var due := DueAt(setup, rows, now);
    var after := Emit(setup, sent, due);
    EmitAppends(setup, sent, due);
    EmitKeepsClosed(setup, rows, now, sent);
    forall t, x | now <= t && x in DueAt(setup, rows, t) && Builds(setup, x) && x !in after ensures AllBefore(after, x) {
      forall i | 0 <= i < |after| ensures Before(after[i], x) {
        var y := after[i];
        assert y in after;
        if y in sent {
          var k :| 0 <= k < |sent| && sent[k] == y;
          assert AllBefore(sent, x);
        } else {
          LaterDueIsLater(setup, rows, now, t, y, x);
        }
      }
    }
  }

  lemma TickKeepsOrder(setup: Setup, w: World, now: int)
    requires SentWell(setup, w) && w.clock <= now
    ensures SentWell(setup, Step(setup, w, Tick(now)))
  {
    hide Operator.Inv, PhaseAt, Due, Emit, Closed, InOrder, AllBefore, Builds;
    var rows := w.desk.rows;
    InvIsOrdered(w.desk);
    assert NoneMissed(setup, rows, now, w.sent);
    TickIsReady(setup, rows, now, w.sent);
    EmitKeepsOrder(setup, w.sent, DueAt(setup, rows, now));
    EmitKeepsClosed(setup, rows, now, w.sent);
    EmitMissesNone(setup, rows, now, w.sent);
  }

  lemma InvIsOrdered(d: Desk)
    requires Operator.Inv(d)
    ensures Ordered(d.rows) && Contiguous(d.rows)
  {
  }

  lemma ActionKeepsDesk(d: Desk, clock: int, act: Act)
    requires PausedBy(d, clock) && clock <= act.now && d.rows != []
    ensures var e := Apply(d, act);
            && PausedBy(e, act.now)
            && e.rows != [] && LastNumber(e.rows) == LastNumber(d.rows)
            && (Try(d, act).Failure? || act.Pause? ==> e.rows == d.rows)
  {
  }

  predicate Runs(rows: seq<Row>, now: int, n: nat) {
    var r := PhaseAt(rows, LEAD, now);
    r.phase == InRound && r.round.Some? && r.round.value.number == n
  }

  lemma ExtendKeepsRunning(d: Desk, now: int, seconds: int) returns (n: nat)
    requires Operator.Inv(d) && Try(d, Extend(now, seconds)).Success?
    ensures Runs(d.rows, now, n) && Runs(Apply(d, Extend(now, seconds)).rows, now, n)
    ensures Apply(d, Extend(now, seconds)).rows == ShiftFrom(d.rows, n, seconds * SECOND)
  {
    hide Ordered, Contiguous, ShiftFrom, Ended, FindNumber, PauseHolds;
    InRoundIsEnded(d.rows, now);
    LongerRoundStillRuns(d.rows, now, now, seconds * SECOND);
    n := Running(d, now).value.number;
  }

  lemma ResumeKeepsRunning(d: Desk, now: int)
    requires Operator.Inv(d) && Try(d, Resume(now)).Success? && d.log[|d.log| - 1].at <= now
    ensures PausedNow(d)
    ensures var last := d.log[|d.log| - 1];
            && Runs(Apply(d, Resume(now)).rows, now, last.round)
            && Apply(d, Resume(now)).rows == ShiftFrom(d.rows, last.round, ResumeShift(now, last.at))
  {
    hide Operator.Inv, ShiftFrom, PhaseAt;
    ResumeRestores(d, now);
    ReadingShape(Apply(d, Resume(now)).rows, now);
  }

  lemma ReadingShape(rows: seq<Row>, now: int)
    requires PhaseAt(rows, LEAD, now).phase == InRound
    ensures PhaseAt(rows, LEAD, now).round.Some?
  {
  }

  /** A table that was shifted while round n runs makes no other messages possible. */
  lemma ShiftMissesNone(setup: Setup, rows: seq<Row>, n: nat, d: int, now: int, sent: seq<Note>)
    requires Ordered(ShiftFrom(rows, n, d)) && Contiguous(ShiftFrom(rows, n, d)) && Contiguous(rows)
    requires Runs(ShiftFrom(rows, n, d), now, n) && NothingSkipped(setup, rows, n, sent)
    ensures NoneMissed(setup, ShiftFrom(rows, n, d), now, sent)
  {
    hide Ordered, Contiguous, ShiftFrom, PhaseAt, Due, CanFallDue, Builds;
    var after := ShiftFrom(rows, n, d);
    forall t, x | now <= t && x in DueAt(setup, after, t) && Builds(setup, x) ensures x in sent || AllBefore(sent, x) {
      ComingIsPossible(setup, after, now, t, x);
      ShiftKeepsPossible(setup, rows, n, d, x);
    }
  }

  /** While a round runs, what is not missed in time is not skipped in the table. */
  lemma NoneMissedIsNotSkipped(setup: Setup, rows: seq<Row>, n: nat, clock: int, now: int, sent: seq<Note>)
    requires Ordered(rows) && Contiguous(rows) && Runs(rows, now, n) && clock <= now && NoneMissed(setup, rows, clock, sent)
    ensures NothingSkipped(setup, rows, n, sent)
  {
    hide Ordered, Contiguous, PhaseAt, Due, CanFallDue, Builds;
    forall x | CanFallDue(setup, rows, x) && FromRound(n, x) && Builds(setup, x) ensures x in sent || AllBefore(sent, x) {
      var t := PossibleIsComing(setup, rows, now, x);
    }
  }

  lemma ActionMissesNone(setup: Setup, w: World, act: Act)
    requires SentWell(setup, w) && Timely(setup, w, Operate(act))
    ensures NoneMissed(setup, Apply(w.desk, act).rows, act.now, w.sent)
  {
    hide Operator.Inv, PhaseAt, Closed, InOrder, Try, Apply, NothingSkipped, Ordered, Contiguous, ShiftFrom, Due, Builds, AllBefore, Runs;
    var d, e, now := w.desk, Apply(w.desk, act), act.now;
    InvIsOrdered(d);
    StepKeepsInv(d, act);
    InvIsOrdered(e);
    ActionKeepsDesk(d, w.clock, act);
    if Try(d, act).Success? {
      match act
      case Pause(_) =>
      case Extend(_, seconds) =>
        var n := ExtendKeepsRunning(d, now, seconds);
        NoneMissedIsNotSkipped(setup, d.rows, n, w.clock, now, w.sent);
        ShiftMissesNone(setup, d.rows, n, seconds * SECOND, now, w.sent);
      case Resume(_) =>
        TrySucceedsWhenPaused(d, now);
        ResumeKeepsRunning(d, now);
        var last := d.log[|d.log| - 1];
        ShiftMissesNone(setup, d.rows, last.round, ResumeShift(now, last.at), now, w.sent);
    }
  }

  lemma TrySucceedsWhenPaused(d: Desk, now: int)
    requires Try(d, Resume(now)).Success?
    ensures PausedNow(d)
  {
  }

  lemma ActionKeepsOrder(setup: Setup, w: World, act: Act)
    requires SentWell(setup, w) && Timely(setup, w, Operate(act))
    ensures SentWell(setup, Step(setup, w, Operate(act)))
  {
    hide Operator.Inv, Closed, InOrder, Try, Apply, NothingSkipped, NoneMissed;
    StepKeepsInv(w.desk, act);
    ActionKeepsDesk(w.desk, w.clock, act);
    ActionMissesNone(setup, w, act);
  }

  ghost predicate Begin(w: World) {
    Operator.Inv(w.desk) && w.desk.rows != [] && w.desk.log == [] && w.sent == []
  }

  lemma BeginIsWell(setup: Setup, w: World)
    requires Begin(w)
    ensures SentWell(setup, w)
  {
  }

  lemma StepSendsWell(setup: Setup, w: World, h: Happening)
    requires SentWell(setup, w) && Timely(setup, w, h)
    ensures SentWell(setup, Step(setup, w, h))
  {
    hide SentWell, Step;
    match h
    case Tick(now) => TickKeepsOrder(setup, w, now);
    case Operate(act) => ActionKeepsOrder(setup, w, act);
  }

  lemma {:induction false} RunSendsWell(setup: Setup, w: World, hs: seq<Happening>)
    requires SentWell(setup, w) && TimelyRun(setup, w, hs)
    ensures SentWell(setup, Run(setup, w, hs))
  {
    hide SentWell, Step, Timely;
    if hs != [] {
      var before := hs[..|hs| - 1];
      RunSendsWell(setup, w, before);
      StepSendsWell(setup, Run(setup, w, before), hs[|hs| - 1]);
    }
  }

  /**
   Over any timely run of ticks and operator actions, failed builds included, the messages are
   strictly ordered by round and stage, with the end of the event last; so none is ever repeated.
   */
  lemma MessagesStayInOrder(setup: Setup, w: World, hs: seq<Happening>)
    requires Begin(w) && TimelyRun(setup, w, hs)
    ensures InOrder(Run(setup, w, hs).sent) && NoRepeats(Run(setup, w, hs).sent)
  {
    hide Operator.Inv, PhaseAt, Closed, NoneMissed, Run, Begin;
    BeginIsWell(setup, w);
    RunSendsWell(setup, w, hs);
    OrderMeansNoRepeats(Run(setup, w, hs).sent);
  }

  /** Without any condition on times or resumes, no message is ever sent twice. */
  lemma {:induction false} AtMostOnce(setup: Setup, w: World, hs: seq<Happening>)
    requires NoRepeats(w.sent)
    ensures NoRepeats(Run(setup, w, hs).sent)
  {
    hide PhaseAt, Due, Emit, Apply, NoRepeats;
    if hs != [] {
      var before := Run(setup, w, hs[..|hs| - 1]);
      AtMostOnce(setup, w, hs[..|hs| - 1]);
      match hs[|hs| - 1]
      case Tick(now) =>
        EmitAppends(setup, before.sent, Due(PhaseAt(before.desk.rows, LEAD, now), setup.finalSeconds));
      case Operate(act) =>
    }
  }

  // ----- the condition on resumes is exact

  /** A resume before the old end of the paused round skips nothing. */
  lemma BeforeOldEndIsTimely(setup: Setup, w: World, now: int)
    requires SentWell(setup, w) && w.clock <= now && PausedNow(w.desk)
    requires forall row :: row in w.desk.rows && row.number == w.desk.log[|w.desk.log| - 1].round ==> now < row.endsAt
    ensures Timely(setup, w, Operate(Resume(now)))
  {
    hide Operator.Inv, Closed, InOrder, Ordered, Contiguous, NoneMissed, NothingSkipped;
    InvIsOrdered(w.desk);
    PausedRoundStillRuns(w.desk, now);
    NoneMissedIsNotSkipped(setup, w.desk.rows, w.desk.log[|w.desk.log| - 1].round, w.clock, now, w.sent);
  }

  lemma PausedRoundStillRuns(d: Desk, now: int)
    requires Operator.Inv(d) && PausedNow(d) && d.log[|d.log| - 1].at <= now
    requires forall row :: row in d.rows && row.number == d.log[|d.log| - 1].round ==> now < row.endsAt
    ensures Runs(d.rows, now, d.log[|d.log| - 1].round)
  {
    hide Ordered, Contiguous, Ended;
    var last := d.log[|d.log| - 1];
    InRoundIsEnded(d.rows, last.at);
    var k := Ended(d.rows, last.at);
    EndedIsPrefix(d.rows, last.at);
    FirstOpenRound(d.rows, now, k);
  }

  /** After a resume, some tick sends its messages out of order. */
  ghost predicate CanBreak(setup: Setup, w: World, now: int) {
    exists t :: now <= t && !InOrder(Emit(setup, w.sent, DueAt(setup, Apply(w.desk, Resume(now)).rows, t)))
  }

  /**
   A resume that succeeds, at whatever time, can be followed by a tick that breaks the order if and
   only if a message from the resumed round on was skipped; otherwise every timely continuation
   keeps the order.
   */
  lemma ResumeBreaksOrderIff(setup: Setup, w: World, now: int)
    requires SentWell(setup, w) && w.clock <= now && PausedNow(w.desk) && Try(w.desk, Resume(now)).Success?
    ensures CanBreak(setup, w, now) <==>
            !NothingSkipped(setup, w.desk.rows, w.desk.log[|w.desk.log| - 1].round, w.sent)
    ensures !CanBreak(setup, w, now) ==>
              forall hs :: TimelyRun(setup, Step(setup, w, Operate(Resume(now))), hs) ==>
                InOrder(Run(setup, Step(setup, w, Operate(Resume(now))), hs).sent)
  {
    hide Operator.Inv, PhaseAt, Due, Emit, Closed, InOrder, Try, Apply, NoneMissed, NothingSkipped, Run;
    var n := w.desk.log[|w.desk.log| - 1].round;
    TrySucceedsWhenPaused(w.desk, now);
    if NothingSkipped(setup, w.desk.rows, n, w.sent) {
      var after := Step(setup, w, Operate(Resume(now)));
      ActionKeepsOrder(setup, w, Resume(now));
      forall t | now <= t ensures InOrder(Emit(setup, w.sent, DueAt(setup, after.desk.rows, t))) {
        TickKeepsOrder(setup, after, t);
      }
      forall hs | TimelyRun(setup, after, hs) ensures InOrder(Run(setup, after, hs).sent) {
        RunSendsWell(setup, after, hs);
      }
    } else {
      SkippedBreaksOrder(setup, w, now);
    }
  }

  lemma SkippedBreaksOrder(setup: Setup, w: World, now: int)
    requires Operator.Inv(w.desk) && PausedBy(w.desk, now) && PausedNow(w.desk) && Try(w.desk, Resume(now)).Success?
    requires !NothingSkipped(setup, w.desk.rows, w.desk.log[|w.desk.log| - 1].round, w.sent)
    ensures CanBreak(setup, w, now)
  {
    hide Operator.Inv, PhaseAt, Due, Emit, Try, Apply, CanFallDue, Builds, ShiftFrom, Ordered, Contiguous, AllBefore, InOrder;
    var d, last := w.desk, w.desk.log[|w.desk.log| - 1];
    TrySucceedsWhenPaused(d, now);
    var x :| CanFallDue(setup, d.rows, x) && FromRound(last.round, x) && Builds(setup, x) && x !in w.sent && !AllBefore(w.sent, x);
    InvIsOrdered(d);
    StepKeepsInv(d, Resume(now));
    InvIsOrdered(Apply(d, Resume(now)));
    ResumeKeepsRunning(d, now);
    ShiftKeepsPossible(setup, d.rows, last.round, ResumeShift(now, last.at), x);
    var rows := Apply(d, Resume(now)).rows;
    var t := PossibleIsComing(setup, rows, now, x);
    LateSendIsOutOfOrder(setup, rows, t, w.sent, x);
  }

  lemma LateSendIsOutOfOrder(setup: Setup, rows: seq<Row>, t: int, sent: seq<Note>, x: Note)
    requires x in DueAt(setup, rows, t) && Builds(setup, x) && x !in sent && !AllBefore(sent, x)
    ensures !InOrder(Emit(setup, sent, DueAt(setup, rows, t)))
  {
    hide PhaseAt, Emit;
    var due := DueAt(setup, rows, t);
    EmitAppends(setup, sent, due);
    var after := Emit(setup, sent, due);
    var i :| 0 <= i < |sent| && !Before(sent[i], x);
    assert !x.EventEnded?;
    BuildableIsSent(setup, sent, PhaseAt(rows, LEAD, t), x);
    var j :| 0 <= j < |after| && after[j] == x;
    assert forall k :: 0 <= k < |sent| ==> after[..|sent|][k] == after[k];
    assert !Before(after[i], after[j]);
  }

  /** A due message of a round that can be built is sent, because those due before it can be built too. */
  lemma BuildableIsSent(setup: Setup, sent: seq<Note>, r: Reading, x: Note)
    requires x in Due(r, setup.finalSeconds) && Builds(setup, x) && !x.EventEnded?
    ensures x in Emit(setup, sent, Due(r, setup.finalSeconds))
  {
    var due := Due(r, setup.finalSeconds);
    var k: nat :| k < |due| && due[k] == x;
    BuiltUpTo(setup, sent, due, k);
  }

  lemma {:induction false} BuiltUpTo(setup: Setup, sent: seq<Note>, due: seq<Note>, k: nat)
    requires k < |due| && forall j :: 0 <= j <= k ==> Builds(setup, due[j])
    ensures due[k] in Emit(setup, sent, due)
    decreases k
  {
    EmitAppends(setup, sent, due);
    var one := if due[0] in sent then sent else sent + [due[0]];
    EmitAppends(setup, one, due[1..]);
    if k > 0 {
      BuiltUpTo(setup, one, due[1..], k - 1);
    }
  }

  /** Two rounds of 100 seconds with a break of 100 seconds between them. */
  function TwoRounds(): seq<Row> {
    [Row(1, 0, 100 * SECOND), Row(2, 200 * SECOND, 300 * SECOND)]
  }

  lemma TwoRoundsRead(now: int)
    requires 0 <= now < 180 * SECOND
    ensures PhaseAt(TwoRounds(), LEAD, now) ==
            if now < 100 * SECOND then Reading(InRound, Some(TwoRounds()[0]), Some(100 * SECOND - now))
            else Reading(Break, Some(TwoRounds()[0]), Some(180 * SECOND - now))
    ensures Ordered(TwoRounds()) && Contiguous(TwoRounds())
  {
    var rows := TwoRounds();
    EndedIsPrefix(rows, now);
  }

  /** A run in which it happens: a tick in round 1, a pause, a tick in the break after it, and the resume. */
  lemma LateResumeExample()
    ensures var setup := Setup({}, 30);
            var w := Run(setup, World(Desk(TwoRounds(), []), 0, []), [Tick(SECOND), Operate(Pause(50 * SECOND)), Tick(110 * SECOND)]);
            w.sent == [Pairing(1), RoundStart(1), RoundEnd(1)] && CanBreak(setup, w, 120 * SECOND)
  {
    hide PhaseAt, Emit, Run;
    var setup, rows := Setup({}, 30), TwoRounds();
    var a := World(Desk(rows, []), 0, []);
    var hs := [Tick(SECOND), Operate(Pause(50 * SECOND)), Tick(110 * SECOND)];
    TwoRoundsRead(SECOND);
    TwoRoundsRead(50 * SECOND);
    TwoRoundsRead(110 * SECOND);
    var b, c, d := Step(setup, a, hs[0]), Step(setup, Step(setup, a, hs[0]), hs[1]), Run(setup, a, hs);
    ThreeSteps(setup, a, hs);
    assert Due(PhaseAt(rows, LEAD, SECOND), 30) == [Pairing(1), RoundStart(1)];
    EmitTwo(setup);
    EmitOne(setup);
    assert d == World(Desk(rows, [Paused(1, 50 * SECOND)]), 110 * SECOND, [Pairing(1), RoundStart(1), RoundEnd(1)]);
    assert CanFallDue(setup, rows, Warning(1)) && !Before(d.sent[2], Warning(1));
    assert !AllBefore(d.sent, Warning(1));
    assert !NothingSkipped(setup, rows, 1, d.sent);
    assert FindNumber(rows, 1).Some?;
    assert Operator.Inv(d.desk);
    SkippedBreaksOrder(setup, d, 120 * SECOND);
  }

  lemma ThreeSteps(setup: Setup, w: World, hs: seq<Happening>)
    requires |hs| == 3
    ensures Run(setup, w, hs) == Step(setup, Step(setup, Step(setup, w, hs[0]), hs[1]), hs[2])
  {
    assert hs[..2][..1] == hs[..1] && hs[..1][..0] == [];
    assert Run(setup, w, hs[..1]) == Step(setup, w, hs[0]);
    assert Run(setup, w, hs[..2]) == Step(setup, Step(setup, w, hs[0]), hs[1]);
  }

  lemma EmitTwo(setup: Setup)
    requires setup.paired == {}
    ensures Emit(setup, [], [Pairing(1), RoundStart(1)]) == [Pairing(1), RoundStart(1)]
  {
    var due := [Pairing(1), RoundStart(1)];
    assert due[1..] == [RoundStart(1)] && [RoundStart(1)][1..] == [];
    assert Emit(setup, [Pairing(1)], [RoundStart(1)]) == Emit(setup, [Pairing(1)] + [RoundStart(1)], []) == due;
  }

  lemma EmitOne(setup: Setup)
    ensures Emit(setup, [Pairing(1), RoundStart(1)], [RoundEnd(1)]) == [Pairing(1), RoundStart(1), RoundEnd(1)]
  {
    assert [RoundEnd(1)][1..] == [];
    assert Emit(setup, [Pairing(1), RoundStart(1)] + [RoundEnd(1)], []) == [Pairing(1), RoundStart(1), RoundEnd(1)];
  }
}

/**
 The sockets of one participant: which of them owns the connection, who is told it was replaced,
 and when the partner is told that the participant is gone. Each handler is one step.
 */
module Connections {
  import opened Wrappers

  type Channel = nat
  type Process = nat
  type Generation = nat

  /**
   The shared cache (owner, absence), the watches of each process with the tasks still alive, the
   live sockets that completed the handshake, pending replacement notices, and what was sent.
   */
  datatype Desk = Desk(
    owner: Option<Channel>, absence: Option<Generation>, nanos: nat,
    watches: map<Process, Generation>, tasks: set<Generation>,
    live: set<Channel>, seen: set<Channel>, notices: set<Channel>, gone: seq<Generation>)

  datatype Step =
    | Handshake(ch: Channel, at: Process)
    | Close(ch: Channel, at: Process, paired: bool)
    | DeliverReplaced(ch: Channel)
    | Rejoin
    | WatchFires(g: Generation)

  function Start(): Desk {
    Desk(None, None, 0, map[], {}, {}, {}, {}, [])
  }

  // ----- the handlers

  /** The newest socket owns the connection and the one before it is told. */
  function Claim(d: Desk, ch: Channel): Desk {
    d.(owner := Some(ch), notices := if d.owner.Some? && d.owner.value != ch then d.notices + {d.owner.value} else d.notices)
  }

  function CancelWatch(d: Desk, p: Process): Desk {
    if p in d.watches then d.(tasks := d.tasks - {d.watches[p]}, watches := d.watches - {p}) else d
  }

  function ClearAbsence(d: Desk, p: Process): Desk {
    CancelWatch(d, p).(absence := None)
  }

  function BeginAbsence(d: Desk, p: Process, paired: bool): Desk {
    if !paired then d
    else
      var g := d.nanos + 1;
      var c := CancelWatch(d, p);
      c.(nanos := g, absence := Some(g), watches := c.watches[p := g], tasks := c.tasks + {g})
  }

  function Next(d: Desk, s: Step): Desk {
    match s
    case Handshake(ch, p) =>
      if ch in d.seen then d
      else ClearAbsence(Claim(d.(live := d.live + {ch}, seen := d.seen + {ch}), ch), p)
    case Close(ch, p, paired) =>
      var c := d.(live := d.live - {ch});
      if ch !in d.live || d.owner != Some(ch) then c else BeginAbsence(c.(owner := None), p, paired)
    case DeliverReplaced(ch) =>
      if ch in d.notices then d.(notices := d.notices - {ch}, live := d.live - {ch}) else d
    case Rejoin => d.(owner := None, absence := None, notices := d.notices + d.live)
    case WatchFires(g) =>
      if g !in d.tasks then d
      else d.(tasks := d.tasks - {g}, gone := if d.absence == Some(g) then d.gone + [g] else d.gone)
  }

  function Run(d: Desk, steps: seq<Step>): Desk {
    if steps == [] then d else Next(Run(d, steps[..|steps| - 1]), steps[|steps| - 1])
  }

  // ----- the consumer

  /** The cache keys and sockets of a participant, changed in place by the handlers. */
  class ParticipantConnections {
    var owner: Option<Channel>
    var absence: Option<Generation>
    var nanos: nat
    var watches: map<Process, Generation>
    var tasks: set<Generation>
    var live: set<Channel>
    var seen: set<Channel>
    var notices: set<Channel>
    var gone: seq<Generation>

    constructor ()
      ensures State() == Start()
    {
      owner, absence, nanos, watches := None, None, 0, map[];
      tasks, live, seen, notices, gone := {}, {}, {}, {}, [];
    }

    function State(): Desk
      reads this
    {
      Desk(owner, absence, nanos, watches, tasks, live, seen, notices, gone)
    }

    method ClaimExclusiveConnection(ch: Channel)
      modifies this`owner, this`notices
      ensures State() == Claim(old(State()), ch)
    {
      var previous := owner;
      owner := Some(ch);
      if previous.Some? && previous.value != ch {
        notices := notices + {previous.value};
      }
    }

    method DropWatch(p: Process)
      modifies this`watches, this`tasks
      ensures State() == CancelWatch(old(State()), p)
    {
      if p in watches {
        tasks := tasks - {watches[p]};
        watches := watches - {p};
      }
    }

    method CompleteHandshake(ch: Channel, p: Process)
      modifies this
      ensures State() == Next(old(State()), Handshake(ch, p))
    {
      if ch in seen {
        return;
      }
      live, seen := live + {ch}, seen + {ch};
      ClaimExclusiveConnection(ch);
      DropWatch(p);
      absence := None;
    }

    method OnLiveSocketClosed(ch: Channel, p: Process, paired: bool)
      modifies this
      ensures State() == Next(old(State()), Close(ch, p, paired))
    {
      var wasLive := ch in live;
      live := live - {ch};
      if !wasLive || owner != Some(ch) {
        return;
      }
      owner := None;
      if !paired {
        return;
      }
      nanos := nanos + 1;
      absence := Some(nanos);
      DropWatch(p);
      watches := watches[p := nanos];
      tasks := tasks + {nanos};
    }

    method SessionReplaced(ch: Channel)
      modifies this
      ensures State() == Next(old(State()), DeliverReplaced(ch))
    {
      if ch in notices {
        notices, live := notices - {ch}, live - {ch};
      }
    }

    method InvalidateParticipantSockets()
      modifies this
      ensures State() == Next(old(State()), Rejoin)
    {
      owner, absence := None, None;
      notices := notices + live;
    }

    method WatchPartnerAbsence(g: Generation)
      modifies this
      ensures State() == Next(old(State()), WatchFires(g))
    {
      if g !in tasks {
        return;
      }
      tasks := tasks - {g};
      if absence == Some(g) {
        gone := gone + [g];
      }
    }
  }

  // ----- what every run keeps

  ghost predicate NoneRepeated(xs: seq<Generation>) {
    forall i, j :: 0 <= i < j < |xs| ==> xs[i] != xs[j]
  }

  ghost predicate Inv(d: Desk) {
    // the owner is a socket that was never told to go, every other live socket has been told
    && (forall ch :: ch in d.live ==> d.owner == Some(ch) || ch in d.notices)
    && (d.owner.Some? ==> d.owner.value in d.live && d.owner.value !in d.notices)
    && d.live <= d.seen && d.notices <= d.seen
    // an absence is only on record while nobody owns the connection
    && (d.absence.Some? ==> d.owner.None? && d.absence.value <= d.nanos)
    && (d.absence.Some? ==> d.absence.value in d.tasks || d.absence.value in d.gone)
    // a generation is used once, and one that was reported has no task any more
    && (forall g :: g in d.tasks ==> g <= d.nanos && g !in d.gone)
    && (forall g :: g in d.gone ==> g <= d.nanos)
    && NoneRepeated(d.gone)
  }

  lemma NextKeepsInv(d: Desk, s: Step)
    requires Inv(d)
    ensures Inv(Next(d, s))
  {
  }

  lemma {:induction false} RunKeepsInv(d: Desk, steps: seq<Step>)
    requires Inv(d)
    ensures Inv(Run(d, steps))
  {
    hide Inv, Next;
    if steps != [] {
      RunKeepsInv(d, steps[..|steps| - 1]);
      NextKeepsInv(Run(d, steps[..|steps| - 1]), steps[|steps| - 1]);
    }
  }

  /**
   At any time every live socket but the owner has a replacement notice on its way, the owner has
   none, so once the notices are delivered at most one socket is left.
   */
  lemma OthersAreTold(steps: seq<Step>)
    ensures var d := Run(Start(), steps);
            && (forall ch :: ch in d.live && d.owner != Some(ch) ==> ch in d.notices)
            && (d.owner.Some? ==> d.owner.value in d.live && d.owner.value !in d.notices)
            && (d.notices == {} ==> d.live == if d.owner.Some? then {d.owner.value} else {})
            && NoneRepeated(d.gone)
  {
    hide Next;
    RunKeepsInv(Start(), steps);
    var d := Run(Start(), steps);
    if d.notices == {} {
      assert forall ch :: ch in d.live ==> d.owner == Some(ch);
      assert d.live == if d.owner.Some? then {d.owner.value} else {};
    }
  }

  /** A run that delivers the notices of these sockets one after the other. */
  function Deliveries(sockets: seq<Channel>): (steps: seq<Step>)
    ensures |steps| == |sockets| && forall i :: 0 <= i < |sockets| ==> steps[i] == DeliverReplaced(sockets[i])
  {
    seq(|sockets|, i requires 0 <= i < |sockets| => DeliverReplaced(sockets[i]))
  }

  lemma {:induction false} DeliveredOnes(d: Desk, sockets: seq<Channel>)
    ensures Run(d, Deliveries(sockets)) ==
            d.(notices := d.notices - (set ch | ch in sockets), live := d.live - d.notices * (set ch | ch in sockets))
  {
    if sockets != [] {
      var n := |sockets| - 1;
      DeliveredOnes(d, sockets[..n]);
      assert Deliveries(sockets)[..n] == Deliveries(sockets[..n]);
      assert (set ch | ch in sockets) == (set ch | ch in sockets[..n]) + {sockets[n]} by {
        assert sockets == sockets[..n] + [sockets[n]];
      }
      hide Deliveries;
    }
  }

  /** Delivering every pending notice, in any order, leaves the owner as the only live socket. */
  lemma NoticesSettle(steps: seq<Step>, sockets: seq<Channel>)
    requires forall ch :: ch in Run(Start(), steps).notices ==> ch in sockets
    ensures var d, after := Run(Start(), steps), Run(Run(Start(), steps), Deliveries(sockets));
            && after.notices == {} && after.owner == d.owner
            && after.live == if d.owner.Some? then {d.owner.value} else {}
  {
    hide Run, Deliveries;
    RunKeepsInv(Start(), steps);
    var d := Run(Start(), steps);
    DeliveredOnes(d, sockets);
    assert d.live - d.notices * (set ch | ch in sockets) == if d.owner.Some? then {d.owner.value} else {};
  }

  /** Step k closed the owner and recorded generation g, and nothing since then undid it. */
  ghost predicate GoneSince(steps: seq<Step>, k: nat, g: Generation) {
    && k < |steps| && steps[k].Close? && steps[k].paired
    && var before, after := Run(Start(), steps[..k]), Run(Start(), steps[..k + 1]);
    && before.owner == Some(steps[k].ch) && after.owner == None && after.absence == Some(g) && before.nanos < g
    && (forall j :: k < j < |steps| ==> !Undoes(steps, j))
  }

  /** The step is a handshake of a new socket or a re-join. */
  predicate Undoes(steps: seq<Step>, j: nat)
    requires j < |steps|
  {
    steps[j].Rejoin? || (steps[j].Handshake? && steps[j].ch !in Run(Start(), steps[..j]).seen)
  }

  lemma {:induction false} AbsenceHasACause(steps: seq<Step>) returns (k: nat)
    requires Run(Start(), steps).absence.Some?
    ensures GoneSince(steps, k, Run(Start(), steps).absence.value)
  {
    var n := |steps| - 1;
    var front, last := steps[..n], steps[n];
    var d := Run(Start(), front);
    RunKeepsInv(Start(), front);
    hide Inv;
    if last.Close? && last.ch in d.live && d.owner == Some(last.ch) {
      k := n;
      assert steps[..n + 1] == steps;
    } else {
      k := AbsenceHasACause(front);
      CauseStays(steps, k, d.absence.value);
    }
  }

  lemma CauseStays(steps: seq<Step>, k: nat, g: Generation)
    requires steps != [] && GoneSince(steps[..|steps| - 1], k, g) && !Undoes(steps, |steps| - 1)
    ensures GoneSince(steps, k, g)
  {
    hide Run;
    var front := steps[..|steps| - 1];
    assert front[..k] == steps[..k] && front[..k + 1] == steps[..k + 1];
    forall j | k < j < |steps| ensures !Undoes(steps, j) {
      if j < |front| {
        assert !Undoes(front, j);
        assert front[..j] == steps[..j];
      }
    }
  }

  /**
   The owner's socket of somebody in a pair closed and nothing undid it: its generation is on
   record, it was reported if its watch has fired, and is when it fires otherwise.
   */
  lemma {:induction false} DropIsReported(steps: seq<Step>, k: nat) returns (g: Generation)
    requires Dropped(steps, k) && (forall j :: k < j < |steps| ==> !Undoes(steps, j))
    ensures GoneSince(steps, k, g)
    ensures var d := Run(Start(), steps);
            && d.owner == None && d.absence == Some(g)
            && (g in d.gone <==> Fired(steps, k, g))
            && (g !in d.gone ==> Next(d, WatchFires(g)).gone == d.gone + [g])
  {
    RunKeepsInv(Start(), steps[..|steps| - 1]);
    RunKeepsInv(Start(), steps);
    hide Inv;
    var n := |steps| - 1;
    var front, last := steps[..n], steps[n];
    if k == n {
      g := CloseRecords(Run(Start(), front), last.ch, last.at);
      assert steps[..n + 1] == steps;
    } else {
      assert front[..k] == steps[..k];
      forall j | k < j < n ensures !Undoes(front, j) {
        assert !Undoes(steps, j) && front[..j] == steps[..j];
      }
      g := DropIsReported(front, k);
      CauseStays(steps, k, g);
      assert !Undoes(steps, n);
      StillAbsent(Run(Start(), front), last, g);
      FiredOneMore(steps, k, g);
    }
    WatchReports(Run(Start(), steps), g);
  }

  /** The watch of generation g has fired after step k. */
  ghost predicate Fired(steps: seq<Step>, k: nat, g: Generation) {
    exists j :: k < j < |steps| && steps[j] == WatchFires(g)
  }

  lemma FiredOneMore(steps: seq<Step>, k: nat, g: Generation)
    requires k < |steps| - 1
    ensures Fired(steps, k, g) <==> Fired(steps[..|steps| - 1], k, g) || steps[|steps| - 1] == WatchFires(g)
  {
    var front := steps[..|steps| - 1];
    if Fired(front, k, g) {
      var j :| k < j < |front| && front[j] == WatchFires(g);
      assert steps[j] == WatchFires(g);
    }
    if Fired(steps, k, g) {
      var j :| k < j < |steps| && steps[j] == WatchFires(g);
      assert j < |front| ==> front[j] == WatchFires(g);
    }
  }

  /** The absence of somebody in a pair gets a generation that was never used, and a watch. */
  lemma CloseRecords(d: Desk, ch: Channel, p: Process) returns (g: Generation)
    requires Inv(d) && d.owner == Some(ch)
    ensures var after := Next(d, Close(ch, p, true));
            && after.owner == None && after.absence == Some(g) && after.gone == d.gone
            && d.nanos < g && g !in d.tasks && g !in d.gone && g in after.tasks
  {
    g := Next(d, Close(ch, p, true)).absence.value;
  }

  /** Nobody would have to be told about somebody without a pair: nothing is recorded or watched. */
  lemma UnpairedCloseRecordsNothing(steps: seq<Step>, ch: Channel, p: Process)
    requires Run(Start(), steps).owner == Some(ch)
    ensures var d := Run(Start(), steps); var after := Next(d, Close(ch, p, false));
            after.absence == None && after == d.(owner := None, live := d.live - {ch})
  {
    hide Run;
    RunKeepsInv(Start(), steps);
  }

  lemma StillAbsent(d: Desk, s: Step, g: Generation)
    requires Inv(d) && d.owner == None && d.absence == Some(g)
    requires !s.Rejoin? && (s.Handshake? ==> s.ch in d.seen)
    ensures var after := Next(d, s);
            && after.owner == None && after.absence == Some(g)
            && (g in after.gone <==> g in d.gone || s == WatchFires(g))
  {
  }

  lemma WatchReports(d: Desk, g: Generation)
    requires Inv(d) && d.absence == Some(g)
    ensures g !in d.gone ==> Next(d, WatchFires(g)).gone == d.gone + [g]
  {
  }

  /** Step k closes the socket that owns the connection, of somebody who is in a pair. */
  ghost predicate Dropped(steps: seq<Step>, k: nat) {
    k < |steps| && steps[k].Close? && steps[k].paired && Run(Start(), steps[..k]).owner == Some(steps[k].ch)
  }
  /**
   The partner is told that the participant is gone only when its owning socket had closed and no
   handshake or re-join came after that; and never twice for one absence.
   */
  lemma GoneOnlyWhenGone(steps: seq<Step>, g: Generation) returns (k: nat)
    requires Next(Run(Start(), steps), WatchFires(g)).gone != Run(Start(), steps).gone
    ensures GoneSince(steps, k, g)
    ensures Run(Start(), steps).owner == None && g !in Run(Start(), steps).gone
  {
    RunKeepsInv(Start(), steps);
    k := AbsenceHasACause(steps);
  }

  /** An absence is on record exactly if somebody in a pair dropped out and nothing undid it. */
  lemma AbsentIff(steps: seq<Step>)
    ensures Run(Start(), steps).absence.Some? <==> DroppedLast(steps)
  {
    hide Run, Undoes;
    if Run(Start(), steps).absence.Some? {
      var k := AbsenceHasACause(steps);
      assert Dropped(steps, k);
    }
    if DroppedLast(steps) {
      var k: nat :| Dropped(steps, k) && forall j :: k < j < |steps| ==> !Undoes(steps, j);
      var g := DropIsReported(steps, k);
    }
  }

  ghost predicate DroppedLast(steps: seq<Step>) {
    exists k: nat :: Dropped(steps, k) && forall j :: k < j < |steps| ==> !Undoes(steps, j)
  }

  /** Step k is the first handshake of the socket, no new socket and no re-join came after it, and it did not close. */
  ghost predicate OwnsSince(steps: seq<Step>, k: nat, ch: Channel) {
    && k < |steps| && steps[k].Handshake? && steps[k].ch == ch && Undoes(steps, k)
    && (forall j :: k < j < |steps| ==> !Undoes(steps, j) && !(steps[j].Close? && steps[j].ch == ch))
  }

  ghost predicate Owns(steps: seq<Step>, ch: Channel) {
    exists k :: OwnsSince(steps, k, ch)
  }

  /** The newest socket owns the connection, until it closes or the participant joins again. */
  lemma {:induction false} OwnerIsTheNewest(steps: seq<Step>, ch: Channel)
    ensures Run(Start(), steps).owner == Some(ch) <==> Owns(steps, ch)
  {
    if steps != [] {
      var n := |steps| - 1;
      var front, last := steps[..n], steps[n];
      OwnerIsTheNewest(front, ch);
      RunKeepsInv(Start(), front);
      OwnerAfter(Run(Start(), front), last, ch);
      OwnsOneMore(steps, ch);
    }
  }

  lemma OwnerAfter(d: Desk, s: Step, ch: Channel)
    requires Inv(d)
    ensures var isNew := s.Handshake? && s.ch !in d.seen;
            Next(d, s).owner == Some(ch) <==>
            (isNew && s.ch == ch) || (d.owner == Some(ch) && !isNew && !s.Rejoin? && !(s.Close? && s.ch == ch))
  {
  }

  lemma OwnsOneMore(steps: seq<Step>, ch: Channel)
    requires steps != []
    ensures var n := |steps| - 1;
            Owns(steps, ch) <==>
            (Undoes(steps, n) && steps[n].Handshake? && steps[n].ch == ch)
            || (Owns(steps[..n], ch) && !Undoes(steps, n) && !(steps[n].Close? && steps[n].ch == ch))
  {
    hide Run;
    var n := |steps| - 1;
    var front := steps[..n];
    assert forall j :: 0 <= j < n ==> front[j] == steps[j] && front[..j] == steps[..j];
    assert forall j :: 0 <= j < n ==> (Undoes(front, j) <==> Undoes(steps, j));
    if Owns(front, ch) {
      var k :| OwnsSince(front, k, ch);
      assert (Undoes(steps, n) || (steps[n].Close? && steps[n].ch == ch)) || OwnsSince(steps, k, ch);
    }
    if Owns(steps, ch) {
      var k :| OwnsSince(steps, k, ch);
      assert k == n || OwnsSince(front, k, ch);
    }
    if Undoes(steps, n) && steps[n].Handshake? && steps[n].ch == ch {
      assert OwnsSince(steps, n, ch);
    }
  }

  /** A re-join cuts off every socket: all are told, nobody owns the connection, no absence stands. */
  lemma RejoinCutsOff(steps: seq<Step>)
    ensures var d, after := Run(Start(), steps), Run(Start(), steps + [Rejoin]);
            after.owner == None && after.absence == None && after.live == d.live && after.live <= after.notices
            && after.gone == d.gone
  {
    hide Next;
    assert (steps + [Rejoin])[..|steps|] == steps;
    RejoinCuts(Run(Start(), steps));
  }

  lemma RejoinCuts(d: Desk)
    ensures var after := Next(d, Rejoin);
            after.owner == None && after.absence == None && after.live == d.live && after.live <= after.notices
            && after.gone == d.gone
  {
  }

  /** A process has at most one watch running, and each has a generation of its own. */
  ghost predicate OneEach(watches: map<Process, Generation>, tasks: set<Generation>, nanos: nat) {
    && (forall g :: g in tasks ==> g in watches.Values)
    && (forall p :: p in watches ==> watches[p] <= nanos)
    && (forall p, q :: p in watches && q in watches && p != q ==> watches[p] != watches[q])
  }

  ghost predicate Watched(d: Desk) {
    OneEach(d.watches, d.tasks, d.nanos)
  }

  lemma WatchedStep(d: Desk, s: Step)
    requires Watched(d)
    ensures Watched(Next(d, s))
    ensures s.Handshake? && s.ch !in d.seen ==> s.at !in Next(d, s).watches
  {
    match s
    case Handshake(ch, p) =>
      CancelKeepsEach(d, p);
    case Close(ch, p, paired) =>
      var c := d.(live := d.live - {ch}, owner := None);
      CancelKeepsEach(c, p);
      StartKeepsEach(CancelWatch(c, p), p);
    case WatchFires(g) =>
    case _ =>
  }

  lemma CancelKeepsEach(d: Desk, p: Process)
    requires Watched(d)
    ensures Watched(CancelWatch(d, p)) && p !in CancelWatch(d, p).watches && CancelWatch(d, p).nanos == d.nanos
  {
    if p in d.watches {
      var left := d.watches - {p};
      forall g | g in d.tasks && g != d.watches[p] ensures g in left.Values {
        var q :| q in d.watches && d.watches[q] == g;
        assert left[q] == g;
      }
    }
  }

  lemma StartKeepsEach(d: Desk, p: Process)
    requires Watched(d) && p !in d.watches
    ensures OneEach(d.watches[p := d.nanos + 1], d.tasks + {d.nanos + 1}, d.nanos + 1)
  {
    var more := d.watches[p := d.nanos + 1];
    forall g | g in d.tasks ensures g in more.Values {
      var q :| q in d.watches && d.watches[q] == g;
      assert more[q] == g;
    }
    assert more[p] == d.nanos + 1;
  }

  lemma {:induction false} OneWatchPerProcess(steps: seq<Step>)
    ensures Watched(Run(Start(), steps))
  {
    hide Next;
    if steps != [] {
      OneWatchPerProcess(steps[..|steps| - 1]);
      WatchedStep(Run(Start(), steps[..|steps| - 1]), steps[|steps| - 1]);
    }
  }

  /** A socket that was replaced changes nothing when it closes, however late. */
  lemma LateCloseChangesNothing(steps: seq<Step>, ch: Channel, p: Process, paired: bool)
    requires Run(Start(), steps).owner != Some(ch)
    ensures var d := Run(Start(), steps);
            Next(d, Close(ch, p, paired)) == d.(live := d.live - {ch})
  {
  }

  /** Nobody is forgotten: an absence on record was reported, or is when its watch fires. */
  lemma AbsenceIsReported(steps: seq<Step>)
    requires Run(Start(), steps).absence.Some?
    ensures var d := Run(Start(), steps); var g := d.absence.value;
            g in d.gone || Next(d, WatchFires(g)).gone == d.gone + [g]
  {
    hide Run;
    RunKeepsInv(Start(), steps);
  }
}

/**
 What each operation, event and timer of the failover transport comes to for its caller, in every
 state a run can reach: when the call falls back to the relay, what is reported, and where the
 call is afterwards. Stated of rooms, adapters, peers and reported events only.
 */
module FailoverEffects {
  import opened Wrappers
  import opened Failover

  /** The call is in the room the fallback is for. */
  predicate InFallbackRoom(t: Transport) {
    t.selected != "" && Active(t).room == Some(t.selected)
  }

  predicate HasPartner(a: Adapter) {
    a.partner.Some? && a.partner.value != ""
  }

  /**
   The call went over to a new relay: the adapter before it is closed, the others are as they were,
   room, partner and openness go on, and the caller hears of a degraded call and of no failure.
   */
  ghost predicate FallsBack(t: Transport, u: Transport) {
    && u.usingFallback && u.activations == t.activations + 1 && !u.primaryConnected
    && |u.adapters| == |t.adapters| + 1 && u.active == |t.adapters| && Active(u).kind == Relay
    && (forall i :: 0 <= i < |t.adapters| && i != t.active ==> u.adapters[i] == t.adapters[i])
    && u.adapters[t.active].peer.None? && u.adapters[t.active].state.Closed?
    && (t.media.live ==> u.media == t.media)
    && (HasPartner(Active(t)) ==>
          && Active(u).room == Active(t).room && Active(u).partner == Active(t).partner && Active(u).peer.Some?
          && Active(u).muted == !Active(t).state.Open?
          && Active(u).state == if Active(t).state.Open? then Open else Preconnected)
    && u.emitted == t.emitted + [Degraded]
                    + (if t.prompt && Active(t).state.Open? && HasPartner(Active(t)) then [Connected] else [])
  }

  lemma RoomsAgree(t: Transport)
    ensures CanActivate(t) <==> !t.usingFallback && InFallbackRoom(t)
  {
  }

  lemma ActivationFallsBack(t: Transport)
    requires AdaptersOk(t) && CanActivate(t)
    ensures FallsBack(t, ActivateFallback(t))
  {
    hide ActivateFallback, AdaptersOk, Attached;
    ActivationShape(t);
  }

  // ----- kinds of adapters

  /** The first adapter is the direct one, all others are relays. */
  ghost predicate Kinds(t: Transport) {
    forall i :: 0 <= i < |t.adapters| ==> t.adapters[i].kind == if i == 0 then Direct else Relay
  }

  lemma KindUpdate(t: Transport, a: Adapter)
    requires Kinds(t) && a.kind == Active(t).kind
    ensures Kinds(WithActive(t, a))
  {
  }

  lemma ActivationKinds(t: Transport)
    requires AdaptersOk(t) && CanActivate(t) && Kinds(t)
    ensures Kinds(ActivateFallback(t))
  {
    hide ActivateFallback, AdaptersOk, Attached;
    ActivationShape(t);
  }

  lemma RestoreKinds(t: Transport, room: string)
    requires AdaptersOk(t) && Kinds(t)
    ensures Kinds(RestorePrimary(ClearTimer(t).(primaryConnected := false), room))
  {
    hide OffAll, Attached, PeersAccounted, Dormant, BoundOnce, Abandon;
    var c := ClearTimer(t).(primaryConnected := false);
    if t.usingFallback && !FallbackAllowedForRoom(Some(room), t.selected) {
      RestoreShape(c, room);
      KindStays(Active(t));
    }
  }

  lemma KindStays(a: Adapter)
    ensures Abandon(a).kind == a.kind && ReplacePeer(a).kind == a.kind && AdapterLeave(a).kind == a.kind && AdapterOpen(a).kind == a.kind
    ensures forall r, p :: AdapterPreconnect(a, r, p).kind == a.kind && AdapterSwitch(a, r, p).kind == a.kind
  {
  }

  lemma SameKinds(t: Transport, u: Transport)
    requires u.adapters == t.adapters
    ensures Kinds(t) <==> Kinds(u)
  {
  }

  lemma ForwardKinds(t: Transport, e: Event)
    requires AdaptersOk(t) && Kinds(t)
    ensures Kinds(Forward(t, e))
  {
    hide ActivateFallback, AdaptersOk, FallbackAllowedForRoom;
    var c := ClearTimer(t);
    SameAdapters(t, c);
    if e.Failed? && CanActivate(c) {
      ActivationKinds(c);
    }
  }

  /** The transport after restoring the right adapter and joining or switching to a room. */
  function Restored(t: Transport, room: string): Transport {
    RestorePrimary(ClearTimer(t).(primaryConnected := false), room)
  }

  lemma StepKinds(t: Transport, op: Op)
    requires Inv(t) && Kinds(t)
    ensures Kinds(Step(t, op))
  {
    hide ActivateFallback, AdaptersOk, Forward, Deliver, DeliverConnected, RestorePrimary, FallbackAllowedForRoom, Kinds, OffAll, ReplacePeer;
    match op
    case Preconnect(room, partner) =>
      RestoreKinds(t, room);
      var u := Restored(t, room);
      KindStays(Active(u));
      KindUpdate(u, AdapterPreconnect(Active(u), room, partner));
      SameKinds(WithActive(u, AdapterPreconnect(Active(u), room, partner)), Step(t, op));
    case OpenRound =>
      var c := t.(primaryConnected := false);
      SameAdapters(t, c);
      OpenShape(c);
      SameKinds(t, c);
      KindStays(Active(c));
      KindUpdate(c, AdapterOpen(Active(c)));
      SameKinds(WithActive(c, AdapterOpen(Active(c))), Step(t, op));
    case SwitchPartner(room, partner) =>
      RestoreKeepsInv(t, room);
      RestoreKinds(t, room);
      var u := Restored(t, room);
      KindStays(Active(u));
      var b := AdapterSwitch(Active(u), room, partner);
      KindUpdate(u, b);
      var v := AcquireMedia(WithActive(u, b));
      SwitchedOk(u, room, partner);
      ConnectedRooms(v);
      SameKinds(WithActive(u, b), Step(t, op));
    case Leave =>
      LeaveKinds(t);
    case ForceFallback =>
      if CanActivate(t) { ActivationKinds(t); }
    case AdapterEmits(i, e) =>
      EmitKeeps(t, i, e);
      ForwardKinds(t, e);
    case TimerFires(stamp) =>
      if CanActivate(t) { ActivationKinds(t); }
      SameKinds(t, t.(emitted := t.emitted + [Degraded, Failed]));
  }

  lemma LeaveKinds(t: Transport)
    requires Kinds(t)
    ensures Kinds(Step(t, Leave))
  {
    hide OffAll;
  }

  /** What every run of operations, events and timers leads to. */
  ghost predicate Reached(t: Transport) {
    Inv(t) && Kinds(t)
  }

  lemma {:induction false} RunReaches(selected: string, prompt: bool, ops: seq<Op>)
    ensures Reached(Run(Start(selected, prompt), ops))
    ensures Run(Start(selected, prompt), ops).selected == selected && Run(Start(selected, prompt), ops).prompt == prompt
  {
    hide Inv, Step, Kinds, Start, Moves;
    var t := Start(selected, prompt);
    if ops == [] {
      StartReached(selected, prompt);
    } else {
      var front := ops[..|ops| - 1];
      RunReaches(selected, prompt, front);
      StepKeepsInv(Run(t, front), ops[|ops| - 1]);
      StepKinds(Run(t, front), ops[|ops| - 1]);
      StepKeepsSettings(Run(t, front), ops[|ops| - 1]);
    }
  }

  lemma StartReached(selected: string, prompt: bool)
    ensures Reached(Start(selected, prompt)) && Start(selected, prompt).selected == selected && Start(selected, prompt).prompt == prompt
  {
    hide On, Inv;
    StartInv(selected, prompt);
  }

  /** Before the first operation the direct adapter is on, and nothing was created, said or armed. */
  lemma StartAtRest(selected: string, prompt: bool)
    ensures var t := Start(selected, prompt);
            && !t.usingFallback && !t.primaryConnected && !t.media.live && t.media.calls == 0
            && t.emitted == [] && t.activations == 0 && t.stamps == {} && |t.adapters| == 1 && t.active == 0
            && Active(t).kind == Direct && Active(t).muted && Active(t).state == Idle
            && Active(t).peer.None? && Active(t).room.None? && Active(t).partner.None? && t.bound != []
  {
  }

  lemma StepKeepsSettings(t: Transport, op: Op)
    requires Inv(t)
    ensures Step(t, op).selected == t.selected && Step(t, op).prompt == t.prompt
  {
    hide Inv, Step;
    StepKeepsInv(t, op);
    if op.Leave? {
      LeaveKeeps(t);
    }
  }

  // ----- events and timers

  /**
   After any run and while a session is on, a failure of the active path makes the call fall back
   exactly if it is in the fallback room and not on the fallback yet; otherwise the caller hears
   of the failure and nothing else changes.
   */
  lemma FailureEffect(selected: string, prompt: bool, ops: seq<Op>)
    requires Run(Start(selected, prompt), ops).bound != []
    ensures var t := Run(Start(selected, prompt), ops); var u := Step(t, AdapterEmits(t.active, Failed));
            if !t.usingFallback && InFallbackRoom(t) then FallsBack(t, u)
            else u == t.(generation := t.generation + 1, emitted := t.emitted + [Failed])
  {
    hide Run, Start, Kinds, Step, Forward, AdaptersOk, FallsBack, StampsOk;
    RunReaches(selected, prompt, ops);
    var t := Run(Start(selected, prompt), ops);
    EmitKeeps(t, t.active, Failed);
    FailedForwarded(t);
  }

  lemma FailedForwarded(t: Transport)
    requires AdaptersOk(t)
    ensures if !t.usingFallback && InFallbackRoom(t) then FallsBack(t, Forward(t, Failed))
            else Forward(t, Failed) == t.(generation := t.generation + 1, emitted := t.emitted + [Failed])
  {
    hide ActivateFallback, AdaptersOk;
    var c := ClearTimer(t);
    SameAdapters(t, c);
    RoomsAgree(c);
    if CanActivate(c) {
      ActivationFallsBack(c);
    }
  }

  /** Every other event of the active path is passed on, a connection is remembered, and no room changes. */
  lemma EventEffect(selected: string, prompt: bool, ops: seq<Op>, e: Event)
    requires Run(Start(selected, prompt), ops).bound != [] && !e.Failed?
    ensures var t := Run(Start(selected, prompt), ops); var u := Step(t, AdapterEmits(t.active, e));
            u == if e.Connected? then t.(generation := t.generation + 1, primaryConnected := !t.usingFallback, emitted := t.emitted + [e])
                 else t.(emitted := t.emitted + [e])
  {
    hide Run, Start, Kinds, Step, AdaptersOk, StampsOk;
    RunReaches(selected, prompt, ops);
    var t := Run(Start(selected, prompt), ops);
    EmitKeeps(t, t.active, e);
  }

  /** An event of any other adapter, or after the session was left, has no effect at all. */
  lemma OtherEventEffect(selected: string, prompt: bool, ops: seq<Op>, i: nat, e: Event)
    requires var t := Run(Start(selected, prompt), ops); i != t.active || t.bound == []
    ensures var t := Run(Start(selected, prompt), ops); Step(t, AdapterEmits(i, e)) == t
  {
    hide Run, Start, Kinds, Step, AdaptersOk, StampsOk;
    RunReaches(selected, prompt, ops);
    EmitKeeps(Run(Start(selected, prompt), ops), i, e);
  }

  /** A timer that is not out of date makes the call fall back in the fallback room, and fail elsewhere. */
  lemma TimeoutEffect(selected: string, prompt: bool, ops: seq<Op>, stamp: nat)
    requires var t := Run(Start(selected, prompt), ops); stamp in t.stamps && stamp == t.generation
    ensures var t := Run(Start(selected, prompt), ops); var u := Step(t, TimerFires(stamp));
            if InFallbackRoom(t) then FallsBack(t, u) else u == t.(emitted := t.emitted + [Degraded, Failed])
  {
    hide Run, Start, Kinds, AdaptersOk, ActivateFallback, FallsBack;
    RunReaches(selected, prompt, ops);
    var t := Run(Start(selected, prompt), ops);
    RoomsAgree(t);
    if CanActivate(t) {
      ActivationFallsBack(t);
    }
  }

  /** Forcing the fallback works exactly in the fallback room. */
  lemma ForceEffect(selected: string, prompt: bool, ops: seq<Op>)
    ensures var t := Run(Start(selected, prompt), ops); var u := Step(t, ForceFallback);
            if !t.usingFallback && InFallbackRoom(t) then FallsBack(t, u) else u == t
  {
    hide Run, Start, Kinds, AdaptersOk, ActivateFallback, FallsBack;
    RunReaches(selected, prompt, ops);
    var t := Run(Start(selected, prompt), ops);
    RoomsAgree(t);
    if CanActivate(t) {
      ActivationFallsBack(t);
    }
  }

  // ----- operations of the caller

  /** The fallback stays in use for another call exactly in the fallback room. */
  predicate StaysOnFallback(t: Transport, room: string) {
    t.usingFallback && t.selected != "" && room == t.selected
  }

  function Serving(t: Transport, room: string): (i: nat)
    ensures i < |t.adapters|
  {
    if StaysOnFallback(t, room) then t.active else 0
  }

  /** Which adapter serves a new room: the relay in use if it may stay, the direct one otherwise. */
  lemma RestoreEffect(t: Transport, room: string)
    requires Reached(t) && t.bound != []
    ensures var u := Restored(t, room); var stays := StaysOnFallback(t, room);
            && Inv(u) && u.bound != [] && u.usingFallback == stays && !u.primaryConnected && u.generation !in u.stamps
            && u.active == Serving(t, room) && Active(u).kind == (if stays then Relay else Direct)
            && u.emitted == t.emitted && u.media == t.media && u.prompt == t.prompt && u.selected == t.selected
            && Active(u).generation == t.adapters[Serving(t, room)].generation
            && (!stays && t.usingFallback ==> u.adapters[t.active].peer.None?)
  {
    RestoreKeepsInv(t, room);
    RestoreKinds(t, room);
    hide Inv, BoundOnce, PeersAccounted, Dormant, OffAll;
    assert AdaptersOk(t) by { InvParts(t); }
    var c := ClearTimer(t).(primaryConnected := false);
    if t.usingFallback && !FallbackAllowedForRoom(Some(room), t.selected) {
      SameAdapters(t, c);
      RestoreShape(c, room);
    }
  }

  lemma InvParts(t: Transport)
    requires Inv(t)
    ensures AdaptersOk(t) && StampsOk(t)
  {
  }

  /** The active adapter has a new peer in this room with this partner. */
  predicate NewPeerIn(a: Adapter, room: string, partner: string, before: nat) {
    a.room == Some(room) && a.partner == Some(partner) && a.generation == before + 1 && a.peer == Some(before + 1)
  }

  lemma PreconnectEffect(selected: string, prompt: bool, ops: seq<Op>, room: string, partner: string)
    requires Run(Start(selected, prompt), ops).bound != []
    ensures var t := Run(Start(selected, prompt), ops); var u := Step(t, Preconnect(room, partner));
            && u.usingFallback == StaysOnFallback(t, room) && Active(u).kind == (if StaysOnFallback(t, room) then Relay else Direct)
            && u.active == Serving(t, room) && NewPeerIn(Active(u), room, partner, t.adapters[Serving(t, room)].generation)
            && Active(u).muted && Active(u).state == Preconnected
            && u.media.live && u.emitted == t.emitted && !u.primaryConnected && u.generation !in u.stamps
  {
    hide Run, Start, Reached, RestorePrimary, StaysOnFallback;
    RunReaches(selected, prompt, ops);
    RestoreEffect(Run(Start(selected, prompt), ops), room);
  }

  lemma SwitchEffect(selected: string, prompt: bool, ops: seq<Op>, room: string, partner: string)
    requires Run(Start(selected, prompt), ops).bound != []
    ensures var t := Run(Start(selected, prompt), ops); var u := Step(t, SwitchPartner(room, partner));
            && u.usingFallback == StaysOnFallback(t, room) && Active(u).kind == (if StaysOnFallback(t, room) then Relay else Direct)
            && u.active == Serving(t, room) && NewPeerIn(Active(u), room, partner, t.adapters[Serving(t, room)].generation)
            && !Active(u).muted && Active(u).state == Open && u.media.live
            && u.emitted == t.emitted + (if prompt then [Connected] else [])
            && u.primaryConnected == (prompt && !u.usingFallback)
            && (u.generation in u.stamps <==> !prompt && !u.usingFallback)
  {
    hide Run, Start, Reached, RestorePrimary, StaysOnFallback, DeliverConnected, Inv, ReplacePeer;
    RunReaches(selected, prompt, ops);
    var t := Run(Start(selected, prompt), ops);
    RestoreEffect(t, room);
    var u := Restored(t, room);
    var v := AcquireMedia(WithActive(u, AdapterSwitch(Active(u), room, partner)));
    InvParts(u);
    SwitchedOk(u, room, partner);
    OneForward(v, Connected);
    SwitchedPeer(Active(u), room, partner);
    KindStays(Active(u));
    ArmEffect(v, v.prompt);
  }

  lemma SwitchedPeer(a: Adapter, room: string, partner: string)
    ensures NewPeerIn(AdapterSwitch(a, room, partner), room, partner, a.generation)
  {
  }

  /** A timer is armed exactly if neither the fallback nor a direct connection makes it pointless. */
  lemma ArmEffect(t: Transport, connected: bool)
    requires StampsOk(t) && !t.primaryConnected
    ensures var u := ArmTimer(if connected then ForwardConnected(t) else t);
            && u.usingFallback == t.usingFallback && u.adapters == t.adapters && u.active == t.active && u.media == t.media
            && u.emitted == t.emitted + (if connected then [Connected] else [])
            && u.primaryConnected == (connected && !t.usingFallback)
            && (u.generation in u.stamps <==> !connected && !t.usingFallback)
  {
  }

  lemma OpenEffect(selected: string, prompt: bool, ops: seq<Op>)
    requires Run(Start(selected, prompt), ops).bound != []
    ensures var t := Run(Start(selected, prompt), ops); var u := Step(t, OpenRound);
            && u.usingFallback == t.usingFallback && u.active == t.active
            && Active(u) == Active(t).(muted := false, state := Open) && u.media == t.media
            && u.emitted == t.emitted + (if prompt then [Connected] else [])
            && u.primaryConnected == (prompt && !u.usingFallback)
            && (u.generation in u.stamps <==> !prompt && !u.usingFallback)
  {
    hide Run, Start, OpenActive, ArmTimer, ForwardConnected, Kinds, AdaptersOk;
    RunReaches(selected, prompt, ops);
    var t := Run(Start(selected, prompt), ops);
    var c := t.(primaryConnected := false);
    SameAdapters(t, c);
    OpenShape(c);
    ArmEffect(WithActive(c, AdapterOpen(Active(c))), prompt);
  }

  /** Leaving closes every peer, forgets the room, turns the media off and listens to nothing. */
  lemma LeaveEffect(selected: string, prompt: bool, ops: seq<Op>)
    ensures var t := Run(Start(selected, prompt), ops); var u := Step(t, Leave);
            && !u.usingFallback && !u.primaryConnected && !u.media.live && u.bound == [] && u.emitted == t.emitted
            && Active(u).room.None? && Active(u).partner.None? && Active(u).muted && Active(u).state == Closed
            && (forall i :: 0 <= i < |u.adapters| ==> u.adapters[i].peer.None?)
            && u.generation !in u.stamps
  {
    hide Run, Start, OffAll, Kinds, PeersAccounted, Attached, BoundOnce;
    RunReaches(selected, prompt, ops);
    var t := Run(Start(selected, prompt), ops);
    assert forall i :: 0 <= i < |t.adapters| && i != t.active ==> Dormant(t.adapters[i]);
  }
}

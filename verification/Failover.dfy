/**
 Media transports that fall back from a direct path to a relay for one selected room: adapters,
 their peers and listeners, escalation timers, and what every run of operations keeps.
 */
module Failover {
  import opened Wrappers

  datatype Event = Connected | Degraded | Failed | Stats
  datatype Kind = Direct | Relay
  datatype MediaState = Idle | Preconnected | Open | Closed

  /** A forwarder that the failover transport registered in one of its bindings. */
  datatype Handler = Forwarder(event: Event, serial: nat)

  type Listeners = map<Event, seq<Handler>>

  /** One adapter. Peers are named by the generation that created them. */
  datatype Adapter = Adapter(
    kind: Kind, state: MediaState, room: Option<string>, partner: Option<string>, muted: bool,
    generation: nat, peer: Option<nat>, abandoned: seq<nat>, listeners: Listeners)

  /** The shared camera and microphone. */
  datatype Media = Media(live: bool, calls: nat)

  datatype Wiring = Wiring(
    selected: string, prompt: bool, adapters: seq<Adapter>, active: nat, usingFallback: bool, bound: seq<Handler>,
    serial: nat, activations: nat, generation: nat, stamps: set<nat>, primaryConnected: bool, media: Media, emitted: seq<Event>)

  /** There always is an active adapter. */
  type Transport = w: Wiring | w.active < |w.adapters|
    witness Wiring("", true, [NewAdapter(Direct)], 0, false, [], 0, 0, 0, {}, false, Media(false, 0), [])

  /** The fallback is for one named room only. */
  predicate FallbackAllowedForRoom(room: Option<string>, selected: string) {
    selected != "" && room.Some? && room.value != "" && room.value == selected
  }

  // ----- shared media

  function Acquire(m: Media): Media {
    if m.live then m else Media(true, m.calls + 1)
  }

  // ----- one adapter

  const NoListeners: Listeners := map[Connected := [], Degraded := [], Failed := [], Stats := []]

  function NewAdapter(kind: Kind): Adapter {
    Adapter(kind, Idle, None, None, true, 0, None, [], NoListeners)
  }

  function ReplacePeer(a: Adapter): Adapter {
    a.(abandoned := a.abandoned + (if a.peer.Some? then [a.peer.value] else []),
       generation := a.generation + 1, peer := Some(a.generation + 1))
  }

  function Abandon(a: Adapter): Adapter {
    a.(abandoned := a.abandoned + (if a.peer.Some? then [a.peer.value] else []),
       peer := None, listeners := NoListeners, state := Closed)
  }

  function AdapterPreconnect(a: Adapter, room: string, partner: string): Adapter {
    ReplacePeer(a.(room := Some(room), partner := Some(partner), muted := true)).(state := Preconnected)
  }

  function AdapterOpen(a: Adapter): Adapter {
    a.(muted := false, state := Open)
  }

  function AdapterSwitch(a: Adapter, room: string, partner: string): Adapter {
    ReplacePeer(a.(room := Some(room), partner := Some(partner))).(muted := false, state := Open)
  }

  function AdapterLeave(a: Adapter): Adapter {
    Abandon(a.(muted := true, room := None, partner := None))
  }

  function ListenersOf(ls: Listeners, e: Event): seq<Handler> {
    if e in ls then ls[e] else []
  }

  function On(ls: Listeners, h: Handler): Listeners {
    ls[h.event := ListenersOf(ls, h.event) + [h]]
  }

  function RemoveFirst(hs: seq<Handler>, h: Handler): seq<Handler> {
    if hs == [] then [] else if hs[0] == h then hs[1..] else [hs[0]] + RemoveFirst(hs[1..], h)
  }

  function Off(ls: Listeners, h: Handler): Listeners {
    if h.event in ls then ls[h.event := RemoveFirst(ls[h.event], h)] else ls
  }

  function OffAll(ls: Listeners, hs: seq<Handler>): Listeners {
    if hs == [] then ls else OffAll(Off(ls, hs[0]), hs[1..])
  }

  // ----- the failover transport

  function Active(t: Transport): Adapter
  {
    t.adapters[t.active]
  }

  function WithActive(t: Transport, a: Adapter): Transport
  {
    t.(adapters := t.adapters[t.active := a])
  }

  function Forwarders(serial: nat): seq<Handler> {
    [Forwarder(Connected, serial), Forwarder(Degraded, serial), Forwarder(Failed, serial), Forwarder(Stats, serial)]
  }

  function ClearTimer(t: Transport): Transport {
    t.(generation := t.generation + 1)
  }

  /** A new timer carries the generation of its moment as a stamp. */
  function ArmTimer(t: Transport): Transport {
    var c := ClearTimer(t);
    if t.usingFallback || t.primaryConnected then c else c.(stamps := c.stamps + {c.generation})
  }

  function BindActive(t: Transport): Transport
  {
    var hs := Forwarders(t.serial);
    var a := Active(t);
    WithActive(t, a.(listeners := On(On(On(On(a.listeners, hs[0]), hs[1]), hs[2]), hs[3]))).(bound := hs, serial := t.serial + 1)
  }

  function UnbindActive(t: Transport): Transport
  {
    WithActive(t, Active(t).(listeners := OffAll(Active(t).listeners, t.bound))).(bound := [])
  }

  function CloseActiveKeepMedia(t: Transport): Transport
  {
    var u := UnbindActive(t);
    WithActive(u, Abandon(Active(u)))
  }

  function ForwardConnected(t: Transport): Transport {
    ClearTimer(t.(primaryConnected := !t.usingFallback)).(emitted := t.emitted + [Connected])
  }

  /** The connected event reaches every forwarder that listens for it. */
  function DeliverConnected(t: Transport, hs: seq<Handler>): Transport
    decreases |hs|
  {
    if hs == [] then t else DeliverConnected(if hs[0].event.Connected? then ForwardConnected(t) else t, hs[1..])
  }

  function AcquireMedia(t: Transport): Transport {
    t.(media := Acquire(t.media))
  }

  function OpenActive(t: Transport): Transport
  {
    var u := WithActive(t, AdapterOpen(Active(t)));
    if t.prompt then DeliverConnected(u, ListenersOf(Active(u).listeners, Connected)) else u
  }

  function CanActivate(t: Transport): bool
  {
    !t.usingFallback && FallbackAllowedForRoom(Active(t).room, t.selected)
  }

  function TakeOver(t: Transport): Transport {
    var closed := CloseActiveKeepMedia(ClearTimer(t).(emitted := t.emitted + [Degraded]));
    BindActive(closed.(adapters := closed.adapters + [NewAdapter(Relay)], active := |closed.adapters|,
                       usingFallback := true, primaryConnected := false, activations := t.activations + 1))
  }

  /** The old adapter is closed, the media stays, and a relay takes over room, partner and openness. */
  function ActivateFallback(t: Transport): Transport
    requires CanActivate(t)
  {
    var was, u := Active(t), TakeOver(t);
    if was.partner.Some? && was.partner.value != "" then
      var p := AcquireMedia(WithActive(u, AdapterPreconnect(Active(u), was.room.value, was.partner.value)));
      if was.state.Open? then OpenActive(p) else p
    else u
  }

  function RestorePrimary(t: Transport, room: string): Transport
  {
    if !t.usingFallback || FallbackAllowedForRoom(Some(room), t.selected) then t
    else
      var closed := CloseActiveKeepMedia(ClearTimer(t));
      BindActive(closed.(active := 0, usingFallback := false, primaryConnected := false))
  }

  function OnActiveFailed(t: Transport): Transport
  {
    if CanActivate(t) then ActivateFallback(t) else t.(emitted := t.emitted + [Failed])
  }

  function Forward(t: Transport, e: Event): Transport
  {
    match e
    case Connected => ForwardConnected(t)
    case Failed => OnActiveFailed(ClearTimer(t))
    case _ => t.(emitted := t.emitted + [e])
  }

  /** Every forwarder of a list is called in turn. */
  function Deliver(t: Transport, hs: seq<Handler>): Transport
    decreases |hs|
  {
    if hs == [] then t
    else Deliver(Forward(t, hs[0].event), hs[1..])
  }

  function OnTimeout(t: Transport, stamp: nat): Transport
  {
    if stamp != t.generation || t.usingFallback || t.primaryConnected then t
    else if CanActivate(t) then ActivateFallback(t)
    else t.(emitted := t.emitted + [Degraded, Failed])
  }

  // ----- operations

  datatype Op =
    | Preconnect(room: string, partner: string)
    | OpenRound
    | SwitchPartner(room: string, partner: string)
    | Leave
    | ForceFallback
    | AdapterEmits(adapter: nat, event: Event)
    | TimerFires(stamp: nat)

  /** One operation by the caller, event of an adapter, or firing of a timer that was armed. */
  function Step(t: Transport, op: Op): Transport
  {
    match op
    case Preconnect(room, partner) =>
      var u := RestorePrimary(ClearTimer(t).(primaryConnected := false), room);
      AcquireMedia(WithActive(u, AdapterPreconnect(Active(u), room, partner)))
    case OpenRound => ArmTimer(OpenActive(t.(primaryConnected := false)))
    case SwitchPartner(room, partner) =>
      var u := RestorePrimary(ClearTimer(t).(primaryConnected := false), room);
      var v := AcquireMedia(WithActive(u, AdapterSwitch(Active(u), room, partner)));
      ArmTimer(if v.prompt then DeliverConnected(v, ListenersOf(Active(v).listeners, Connected)) else v)
    case Leave =>
      var u := UnbindActive(ClearTimer(t));
      WithActive(u, AdapterLeave(Active(u))).(media := t.media.(live := false), usingFallback := false, primaryConnected := false)
    case ForceFallback => if CanActivate(t) then ActivateFallback(t) else t
    case AdapterEmits(i, e) => if i < |t.adapters| then Deliver(t, ListenersOf(t.adapters[i].listeners, e)) else t
    case TimerFires(stamp) => if stamp in t.stamps then OnTimeout(t, stamp) else t
  }

  function Start(selected: string, prompt: bool): Transport {
    BindActive(Wiring(selected, prompt, [NewAdapter(Direct)], 0, false, [], 0, 0, 0, {}, false, Media(false, 0), []))
  }

  // ----- what every operation keeps

  /** Every peer the adapter ever created is its current one or was abandoned, each once and in order. */
  ghost predicate PeersAccounted(a: Adapter) {
    && |a.abandoned| + (if a.peer.Some? then 1 else 0) == a.generation
    && (forall k :: 0 <= k < |a.abandoned| ==> a.abandoned[k] == k + 1)
    && (a.peer.Some? ==> a.peer.value == a.generation)
  }

  ghost predicate Dormant(a: Adapter) {
    a.peer.None? && a.listeners == NoListeners
  }

  /** One forwarder for each event, all of one binding. */
  function Attached(serial: nat): Listeners {
    map[Connected := [Forwarder(Connected, serial)], Degraded := [Forwarder(Degraded, serial)],
        Failed := [Forwarder(Failed, serial)], Stats := [Forwarder(Stats, serial)]]
  }

  ghost predicate BoundOnce(a: Adapter, bound: seq<Handler>) {
    if bound == [] then a.listeners == NoListeners
    else bound == Forwarders(bound[0].serial) && a.listeners == Attached(bound[0].serial)
  }

  ghost predicate AdaptersOk(t: Transport) {
    && (forall i :: 0 <= i < |t.adapters| ==> PeersAccounted(t.adapters[i]))
    && (forall i :: 0 <= i < |t.adapters| && i != t.active ==> Dormant(t.adapters[i]))
    && BoundOnce(Active(t), t.bound)
    && (t.usingFallback ==> t.active != 0 && t.bound != [])
    && (t.bound != [] && !t.usingFallback ==> t.active == 0)
  }

  /** No stamp is ahead of the generation, and one that is current was armed while nothing was connected. */
  ghost predicate StampsOk(t: Transport) {
    && (forall g :: g in t.stamps ==> g <= t.generation)
    && (t.generation in t.stamps ==> !t.usingFallback && !t.primaryConnected)
  }

  ghost predicate Inv(t: Transport) {
    AdaptersOk(t) && StampsOk(t)
  }

  // ----- adapters and bindings

  lemma BindAttaches(t: Transport)
    requires Active(t).listeners == NoListeners
    ensures var u := BindActive(t);
            && u.bound == Forwarders(t.serial) && Active(u) == Active(t).(listeners := Attached(t.serial))
            && u == WithActive(t, Active(u)).(bound := u.bound, serial := t.serial + 1)
  {
    var hs := Forwarders(t.serial);
    var ls := On(On(On(On(NoListeners, hs[0]), hs[1]), hs[2]), hs[3]);
    forall e: Event ensures e in ls && ls[e] == Attached(t.serial)[e] {
      match e
      case Connected => assert hs[0].event == e;
      case Degraded => assert hs[1].event == e;
      case Failed => assert hs[2].event == e;
      case Stats => assert hs[3].event == e;
    }
    assert ls == Attached(t.serial);
  }

  lemma UnbindDetaches(t: Transport)
    requires BoundOnce(Active(t), t.bound)
    ensures UnbindActive(t) == WithActive(t, Active(t).(listeners := NoListeners)).(bound := [])
  {
    if t.bound != [] {
      var hs, ls := t.bound, Active(t).listeners;
      var one := Off(ls, hs[0]);
      var two := Off(one, hs[1]);
      var three := Off(two, hs[2]);
      assert OffAll(ls, hs) == OffAll(one, hs[1..]) == OffAll(two, hs[2..]) == OffAll(three, hs[3..]) == Off(three, hs[3]);
      assert Off(three, hs[3]) == NoListeners;
    }
  }

  /** What reaches the transport of an event on its active adapter: nothing, or exactly one call. */
  lemma OneForward(t: Transport, e: Event)
    requires AdaptersOk(t)
    ensures Deliver(t, ListenersOf(Active(t).listeners, e)) == if t.bound == [] then t else Forward(t, e)
    ensures e.Connected? ==>
              DeliverConnected(t, ListenersOf(Active(t).listeners, e)) == if t.bound == [] then t else ForwardConnected(t)
  {
    hide Forward, ForwardConnected;
    ListensOnce(t, e);
  }

  lemma ListensOnce(t: Transport, e: Event)
    requires AdaptersOk(t)
    ensures ListenersOf(Active(t).listeners, e) == if t.bound == [] then [] else [Forwarder(e, t.bound[0].serial)]
  {
    hide PeersAccounted, Dormant;
    match e
    case Connected =>
    case Degraded =>
    case Failed =>
    case Stats =>
  }

  lemma ReplaceKeepsAccount(a: Adapter)
    requires PeersAccounted(a)
    ensures PeersAccounted(ReplacePeer(a)) && PeersAccounted(Abandon(a))
  {
  }

  /** Changing the active adapter only, and neither its listeners nor its account of peers. */
  lemma UpdateKeepsAdapters(t: Transport, a: Adapter)
    requires AdaptersOk(t) && PeersAccounted(a) && a.listeners == Active(t).listeners
    ensures AdaptersOk(WithActive(t, a))
  {
  }

  lemma TakeOverShape(t: Transport)
    requires AdaptersOk(t)
    ensures TakeOver(t) == t.(
              adapters := t.adapters[t.active := Abandon(Active(t))] + [NewAdapter(Relay).(listeners := Attached(t.serial))],
              active := |t.adapters|, usingFallback := true, bound := Forwarders(t.serial), serial := t.serial + 1,
              activations := t.activations + 1, generation := t.generation + 1, primaryConnected := false,
              emitted := t.emitted + [Degraded])
  {
    hide OffAll, On, AdaptersOk, Forwarders;
    var c := ClearTimer(t).(emitted := t.emitted + [Degraded]);
    CloseShape(t, c);
    var closed := CloseActiveKeepMedia(c);
    var u: Transport := closed.(adapters := closed.adapters + [NewAdapter(Relay)], active := |closed.adapters|,
                     usingFallback := true, primaryConnected := false, activations := t.activations + 1);
    BindAttaches(u);
  }

  lemma CloseShape(t: Transport, c: Transport)
    requires AdaptersOk(t) && c.adapters == t.adapters && c.active == t.active && c.bound == t.bound
    ensures CloseActiveKeepMedia(c) == c.(adapters := t.adapters[t.active := Abandon(Active(t))], bound := [])
  {
    hide OffAll;
    UnbindDetaches(c);
  }

  lemma RestoreShape(t: Transport, room: string)
    requires AdaptersOk(t) && t.usingFallback && !FallbackAllowedForRoom(Some(room), t.selected)
    ensures RestorePrimary(t, room) == t.(
              adapters := t.adapters[t.active := Abandon(Active(t))][0 := t.adapters[0].(listeners := Attached(t.serial))],
              active := 0, usingFallback := false, bound := Forwarders(t.serial), serial := t.serial + 1,
              generation := t.generation + 1, primaryConnected := false)
  {
    hide OffAll, On, Forwarders;
    CloseShape(t, ClearTimer(t));
    var closed := CloseActiveKeepMedia(ClearTimer(t));
    assert Dormant(t.adapters[0]);
    var u: Transport := closed.(active := 0, usingFallback := false, primaryConnected := false);
    BindAttaches(u);
  }

  lemma OpenShape(t: Transport)
    requires AdaptersOk(t)
    ensures var u := WithActive(t, AdapterOpen(Active(t)));
            AdaptersOk(u) && OpenActive(t) == if t.prompt && t.bound != [] then ForwardConnected(u) else u
  {
    hide DeliverConnected, PeersAccounted;
    var u := WithActive(t, AdapterOpen(Active(t)));
    AccountIgnores(Active(t), Active(u));
    UpdateKeepsAdapters(t, Active(u));
    OneForward(u, Connected);
  }

  lemma AccountIgnores(a: Adapter, b: Adapter)
    requires a.peer == b.peer && a.generation == b.generation && a.abandoned == b.abandoned
    ensures PeersAccounted(a) <==> PeersAccounted(b)
  {
  }

  /** The relay that takes over. */
  function Successor(was: Adapter, serial: nat): Adapter {
    var a := NewAdapter(Relay).(listeners := Attached(serial));
    if was.partner.Some? && was.partner.value != "" && was.room.Some? then
      a.(room := was.room, partner := was.partner, generation := 1, peer := Some(1),
         muted := !was.state.Open?, state := if was.state.Open? then Open else Preconnected)
    else a
  }

  /**
   Activating the fallback closes the peer of the old adapter and no other, and a relay goes on in
   the same room with the same partner, open exactly if the call was open, without new media.
   */
  lemma ActivationShape(t: Transport)
    requires AdaptersOk(t) && CanActivate(t)
    ensures var r := ActivateFallback(t);
            && r.adapters == t.adapters[t.active := Abandon(Active(t))] + [Successor(Active(t), t.serial)]
            && r.active == |t.adapters| && r.usingFallback && !r.primaryConnected
            && r.bound == Forwarders(t.serial) && r.activations == t.activations + 1
            && r.selected == t.selected && r.prompt == t.prompt && r.stamps == t.stamps
            && r.generation > t.generation
            && (t.media.live ==> r.media == t.media) && (r.media == t.media || r.media == Acquire(t.media))
            && r.emitted == t.emitted + [Degraded]
                            + (if t.prompt && Active(t).state.Open? && Active(t).partner.Some? && Active(t).partner.value != ""
                               then [Connected] else [])
  {
    hide CloseActiveKeepMedia, OffAll, Attached, TakeOver, PeersAccounted, Dormant;
    TakeOverShape(t);
    var was, u := Active(t), TakeOver(t);
    if was.partner.Some? && was.partner.value != "" {
      var p := AcquireMedia(WithActive(u, AdapterPreconnect(Active(u), was.room.value, was.partner.value)));
      var front := t.adapters[t.active := Abandon(was)];
      assert p.adapters == front + [AdapterPreconnect(Active(u), was.room.value, was.partner.value)];
      assert AdapterPreconnect(Active(u), was.room.value, was.partner.value).abandoned == [];
      if was.state.Open? {
        var o := WithActive(p, AdapterOpen(Active(p)));
        assert o.adapters == front + [Successor(was, t.serial)];
        AttachedListens(o, t.serial);
      }
    }
  }

  lemma AttachedListens(t: Transport, serial: nat)
    ensures DeliverConnected(t, ListenersOf(Attached(serial), Connected)) == ForwardConnected(t)
  {
  }

  lemma SuccessorIsAccounted(t: Transport)
    requires AdaptersOk(t)
    ensures PeersAccounted(Successor(Active(t), t.serial)) && PeersAccounted(Abandon(Active(t))) && Dormant(Abandon(Active(t)))
    ensures BoundOnce(Successor(Active(t), t.serial), Forwarders(t.serial))
  {
    hide Attached;
  }

  lemma ActivationKeepsInv(t: Transport)
    requires Inv(t) && CanActivate(t)
    ensures Inv(ActivateFallback(t))
  {
    hide ActivateFallback, PeersAccounted, Dormant, BoundOnce, Successor, Abandon;
    ActivationShape(t);
    SuccessorIsAccounted(t);
  }

  // ----- one step

  function Unopened(m: Media): nat {
    if m.live then 0 else 1
  }

  /** How far one step may move the counters. */
  ghost predicate Moves(t: Transport, u: Transport) {
    && u.selected == t.selected && u.prompt == t.prompt && t.generation <= u.generation
    && u.activations == t.activations + (if u.usingFallback && !t.usingFallback then 1 else 0)
    && u.media.calls + Unopened(u.media) <= t.media.calls + Unopened(t.media)
  }

  /** Restoring the primary adapter, or not, keeps everything and ends the fallback outside its room. */
  lemma RestoreKeepsInv(t: Transport, room: string)
    requires Inv(t)
    ensures var u := RestorePrimary(ClearTimer(t).(primaryConnected := false), room);
            && Inv(u) && u.selected == t.selected && u.prompt == t.prompt && u.generation > t.generation
            && u.activations == t.activations && u.media == t.media && u.generation !in u.stamps
            && u.usingFallback == (t.usingFallback && FallbackAllowedForRoom(Some(room), t.selected))
            && !u.primaryConnected && (t.bound != [] ==> u.bound != []) && u.stamps == t.stamps
  {
    hide PeersAccounted, CloseActiveKeepMedia, BindActive, Attached, Forwarders;
    var c := ClearTimer(t).(primaryConnected := false);
    if t.usingFallback && !FallbackAllowedForRoom(Some(room), t.selected) {
      RestoreShape(c, room);
      ReplaceKeepsAccount(Active(t));
      AccountIgnores(t.adapters[0], t.adapters[0].(listeners := Attached(t.serial)));
      BoundToForwarders(t.adapters[0].(listeners := Attached(t.serial)), t.serial);
    }
  }

  lemma BoundToForwarders(a: Adapter, serial: nat)
    requires a.listeners == Attached(serial)
    ensures Forwarders(serial) != [] && BoundOnce(a, Forwarders(serial))
  {
    hide Attached;
  }

  lemma PreconnectKeeps(t: Transport, room: string, partner: string)
    requires Inv(t)
    ensures var u := Step(t, Preconnect(room, partner));
            Inv(u) && Moves(t, u) && u.generation > t.generation && (t.bound != [] ==> u.bound != [])
  {
    hide RestorePrimary, BoundOnce, FallbackAllowedForRoom, PeersAccounted, Dormant;
    RestoreKeepsInv(t, room);
    var u := RestorePrimary(ClearTimer(t).(primaryConnected := false), room);
    var a := Active(u).(room := Some(room), partner := Some(partner), muted := true);
    AccountIgnores(Active(u), a);
    ReplaceKeepsAccount(a);
    AccountIgnores(ReplacePeer(a), AdapterPreconnect(Active(u), room, partner));
    UpdateKeepsAdapters(u, AdapterPreconnect(Active(u), room, partner));
  }

  /** Connecting and arming after an open or a switch. */
  lemma ArmKeepsInv(t: Transport, connected: bool)
    requires AdaptersOk(t) && forall g :: g in t.stamps ==> g <= t.generation
    ensures var u := ArmTimer(if connected then ForwardConnected(t) else t);
            Inv(u) && u.generation > t.generation && u.bound == t.bound && u.usingFallback == t.usingFallback
            && u.activations == t.activations && u.media == t.media && u.selected == t.selected && u.prompt == t.prompt
  {
    hide PeersAccounted, Dormant, BoundOnce;
  }

  lemma OpenKeeps(t: Transport)
    requires Inv(t)
    ensures var u := Step(t, OpenRound);
            Inv(u) && Moves(t, u) && u.generation > t.generation && (t.bound != [] ==> u.bound != [])
  {
    hide PeersAccounted, Dormant, BoundOnce, ArmTimer, OpenActive, ForwardConnected, AdaptersOk;
    var c := t.(primaryConnected := false);
    SameAdapters(t, c);
    OpenShape(c);
    var o := WithActive(c, AdapterOpen(Active(c)));
    ArmKeepsInv(o, t.prompt && t.bound != []);
  }

  lemma SameAdapters(t: Transport, u: Transport)
    requires AdaptersOk(t)
    requires u.adapters == t.adapters && u.active == t.active && u.bound == t.bound && u.usingFallback == t.usingFallback
    ensures AdaptersOk(u)
  {
  }

  lemma SwitchKeeps(t: Transport, room: string, partner: string)
    requires Inv(t)
    ensures var u := Step(t, SwitchPartner(room, partner));
            Inv(u) && Moves(t, u) && u.generation > t.generation && (t.bound != [] ==> u.bound != [])
  {
    hide RestorePrimary, BoundOnce, FallbackAllowedForRoom, PeersAccounted, Dormant, ArmTimer, DeliverConnected, AdaptersOk, ForwardConnected, ReplacePeer;
    RestoreKeepsInv(t, room);
    var u := RestorePrimary(ClearTimer(t).(primaryConnected := false), room);
    var a := Active(u).(room := Some(room), partner := Some(partner));
    ActiveAccounted(u);
    AccountIgnores(Active(u), a);
    ReplaceKeepsAccount(a);
    var b := AdapterSwitch(Active(u), room, partner);
    AccountIgnores(ReplacePeer(a), b);
    ReplaceKeepsListeners(a);
    UpdateKeepsAdapters(u, b);
    var v := AcquireMedia(WithActive(u, b));
    SameAdapters(WithActive(u, b), v);
    OneForward(v, Connected);
    ArmKeepsInv(v, v.prompt && v.bound != []);
  }

  lemma ActiveAccounted(t: Transport)
    requires AdaptersOk(t)
    ensures PeersAccounted(Active(t))
  {
  }

  lemma ReplaceKeepsListeners(a: Adapter)
    ensures ReplacePeer(a).listeners == a.listeners
  {
  }

  lemma LeaveKeeps(t: Transport)
    requires Inv(t)
    ensures var u := Step(t, Leave);
            && Inv(u) && u.generation > t.generation && u.activations == t.activations && !u.usingFallback
            && u.selected == t.selected && u.prompt == t.prompt && u.media == t.media.(live := false)
            && u.bound == []
  {
    hide OffAll, Attached, PeersAccounted;
    SameAdapters(t, ClearTimer(t));
    UnbindDetaches(ClearTimer(t));
    var a := Active(t).(listeners := NoListeners, muted := true, room := None, partner := None);
    AccountIgnores(Active(t), a);
    ReplaceKeepsAccount(a);
  }

  lemma ActivateKeeps(t: Transport)
    requires Inv(t) && CanActivate(t)
    ensures var u := ActivateFallback(t); Inv(u) && Moves(t, u) && u.generation > t.generation && u.bound != []
  {
    hide ActivateFallback, AdaptersOk, Successor;
    ActivationKeepsInv(t);
    ActivationShape(t);
  }

  lemma ForwardKeeps(t: Transport, e: Event)
    requires Inv(t) && t.bound != []
    ensures var u := Forward(t, e);
            Inv(u) && Moves(t, u) && (e.Connected? || e.Failed? ==> u.generation > t.generation) && u.bound != []
  {
    hide ActivateFallback, PeersAccounted, Dormant, BoundOnce, FallbackAllowedForRoom;
    var c := ClearTimer(t);
    if e.Failed? && CanActivate(c) {
      ActivateKeeps(c);
    }
  }

  lemma EmitKeeps(t: Transport, i: nat, e: Event)
    requires Inv(t)
    ensures var u := Step(t, AdapterEmits(i, e));
            && Inv(u) && Moves(t, u) && (t.bound != [] ==> u.bound != [])
            && (i != t.active || t.bound == [] ==> u == t)
            && (i == t.active && t.bound != [] ==> u == Forward(t, e))
  {
    hide Forward, PeersAccounted, Attached, BoundOnce;
    if i == t.active {
      OneForward(t, e);
      if t.bound != [] {
        ForwardKeeps(t, e);
      }
    } else if i < |t.adapters| {
      assert Dormant(t.adapters[i]);
      NobodyListens(e);
    }
  }

  lemma NobodyListens(e: Event)
    ensures ListenersOf(NoListeners, e) == []
  {
    match e
    case Connected =>
    case Degraded =>
    case Failed =>
    case Stats =>
  }

  lemma TimerKeeps(t: Transport, stamp: nat)
    requires Inv(t)
    ensures var u := Step(t, TimerFires(stamp)); Inv(u) && Moves(t, u) && (t.bound != [] ==> u.bound != [])
  {
    hide ActivateFallback, PeersAccounted, Dormant, BoundOnce, FallbackAllowedForRoom;
    if CanActivate(t) {
      ActivateKeeps(t);
    }
  }

  lemma StepKeepsInv(t: Transport, op: Op)
    requires Inv(t)
    ensures var u := Step(t, op);
            Inv(u) && t.generation <= u.generation && (t.bound != [] && !op.Leave? ==> u.bound != [])
    ensures !op.Leave? ==> Moves(t, Step(t, op))
    ensures op.Leave? ==> Step(t, op).media == t.media.(live := false) && !Step(t, op).usingFallback
                          && Step(t, op).activations == t.activations
  {
    hide Inv, ActivateFallback, RestorePrimary, Deliver, DeliverConnected, OpenActive;
    match op
    case Preconnect(room, partner) => PreconnectKeeps(t, room, partner);
    case OpenRound => OpenKeeps(t);
    case SwitchPartner(room, partner) => SwitchKeeps(t, room, partner);
    case Leave => LeaveKeeps(t);
    case ForceFallback => if CanActivate(t) { ActivateKeeps(t); }
    case AdapterEmits(i, e) => EmitKeeps(t, i, e);
    case TimerFires(stamp) => TimerKeeps(t, stamp);
  }

  lemma StartInv(selected: string, prompt: bool)
    ensures Inv(Start(selected, prompt)) && Start(selected, prompt).bound != []
  {
    hide On, Attached;
    BindAttaches(Wiring(selected, prompt, [NewAdapter(Direct)], 0, false, [], 0, 0, 0, {}, false, Media(false, 0), []));
  }

  // ----- whole runs

  function Run(t: Transport, ops: seq<Op>): Transport {
    if ops == [] then t else Step(Run(t, ops[..|ops| - 1]), ops[|ops| - 1])
  }

  predicate Session(ops: seq<Op>) {
    forall k :: 0 <= k < |ops| ==> !ops[k].Leave?
  }

  function Leaves(ops: seq<Op>): nat {
    if ops == [] then 0 else Leaves(ops[..|ops| - 1]) + (if ops[|ops| - 1].Leave? then 1 else 0)
  }

  /** How often the fallback was given up: primary restorations, and leaves while it was in use. */
  function GivenUp(t: Transport, ops: seq<Op>): nat {
    if ops == [] then 0
    else
      var u := Run(t, ops[..|ops| - 1]);
      GivenUp(t, ops[..|ops| - 1]) + (if u.usingFallback && !Step(u, ops[|ops| - 1]).usingFallback then 1 else 0)
  }

  lemma {:induction false} RunKeepsInv(t: Transport, ops: seq<Op>)
    requires Inv(t)
    ensures Inv(Run(t, ops)) && (t.bound != [] && Session(ops) ==> Run(t, ops).bound != [])
    ensures t.generation <= Run(t, ops).generation
    ensures Run(t, ops).activations + (if t.usingFallback then 1 else 0)
         == t.activations + GivenUp(t, ops) + (if Run(t, ops).usingFallback then 1 else 0)
    ensures var u := Run(t, ops);
            u.media.calls + Unopened(u.media) <= t.media.calls + Unopened(t.media) + Leaves(ops)
  {
    hide Inv, Step;
    if ops != [] {
      var front := ops[..|ops| - 1];
      RunKeepsInv(t, front);
      StepKeepsInv(Run(t, front), ops[|ops| - 1]);
    }
  }

  /** Whatever is done, no peer is lost or closed twice, and only the active adapter has a live one. */
  lemma AtMostOneLivePeer(selected: string, prompt: bool, ops: seq<Op>)
    ensures var t := Run(Start(selected, prompt), ops);
            && (forall i :: 0 <= i < |t.adapters| ==> PeersAccounted(t.adapters[i]))
            && (forall i, j :: 0 <= i < j < |t.adapters| ==> t.adapters[i].peer.None? || t.adapters[j].peer.None?)
  {
    hide Step;
    StartInv(selected, prompt);
    RunKeepsInv(Start(selected, prompt), ops);
    var t := Run(Start(selected, prompt), ops);
    assert forall i :: 0 <= i < |t.adapters| && i != t.active ==> Dormant(t.adapters[i]);
  }

  /** Until the session is left, exactly one forwarder per event is registered, on the active adapter only. */
  lemma OneForwarderPerEvent(selected: string, prompt: bool, ops: seq<Op>, i: nat, e: Event)
    requires Session(ops) && i < |Run(Start(selected, prompt), ops).adapters|
    ensures var t := Run(Start(selected, prompt), ops);
            var hs := ListenersOf(t.adapters[i].listeners, e);
            if i == t.active then |hs| == 1 && hs[0].event == e else hs == []
  {
    hide Step, PeersAccounted;
    StartInv(selected, prompt);
    RunKeepsInv(Start(selected, prompt), ops);
    var t := Run(Start(selected, prompt), ops);
    assert i != t.active ==> Dormant(t.adapters[i]);
  }

  /** Between two activations the fallback was given up in between, and media is acquired once per leave at most. */
  lemma ActivationsAndAcquisitions(selected: string, prompt: bool, ops: seq<Op>)
    ensures var t := Run(Start(selected, prompt), ops);
            && t.activations == GivenUp(Start(selected, prompt), ops) + (if t.usingFallback then 1 else 0)
            && t.media.calls <= Leaves(ops) + 1
  {
    hide Step, Inv;
    StartInv(selected, prompt);
    RunKeepsInv(Start(selected, prompt), ops);
  }

  // ----- stale timers

  /** Operations and events after which every earlier timer is out of date. */
  predicate Outdates(t: Transport, op: Op) {
    match op
    case Preconnect(_, _) => true
    case OpenRound => true
    case SwitchPartner(_, _) => true
    case Leave => true
    case ForceFallback => CanActivate(t)
    case AdapterEmits(i, e) => i == t.active && t.bound != [] && (e.Connected? || e.Failed?)
    case TimerFires(stamp) => stamp in t.stamps && stamp == t.generation && CanActivate(t)
  }

  lemma OutdatesMoves(t: Transport, op: Op)
    requires Inv(t) && Outdates(t, op)
    ensures Step(t, op).generation > t.generation
  {
    hide ActivateFallback, AdaptersOk, Forward;
    match op
    case Preconnect(room, partner) => PreconnectKeeps(t, room, partner);
    case OpenRound => OpenKeeps(t);
    case SwitchPartner(room, partner) => SwitchKeeps(t, room, partner);
    case Leave => LeaveKeeps(t);
    case ForceFallback => ActivateKeeps(t);
    case AdapterEmits(i, e) =>
      EmitKeeps(t, i, e);
      ForwardKeeps(t, e);
    case TimerFires(stamp) => ActivateKeeps(t);
  }

  /** A timer armed before such an operation does nothing whenever it fires, whatever came between. */
  lemma StaleTimerDoesNothing(selected: string, prompt: bool, before: seq<Op>, op: Op, between: seq<Op>, stamp: nat)
    requires Outdates(Run(Start(selected, prompt), before), op)
    requires stamp in Run(Start(selected, prompt), before).stamps
    ensures var t := Run(Step(Run(Start(selected, prompt), before), op), between); Step(t, TimerFires(stamp)) == t
  {
    hide Inv, Step, Outdates;
    var s := Run(Start(selected, prompt), before);
    StartInv(selected, prompt);
    RunKeepsInv(Start(selected, prompt), before);
    OutdatesMoves(s, op);
    StepKeepsInv(s, op);
    RunKeepsInv(Step(s, op), between);
    StampsAreBehind(s, stamp, Run(Step(s, op), between));
  }

  lemma StampsAreBehind(s: Transport, stamp: nat, t: Transport)
    requires Inv(s) && stamp in s.stamps && s.generation < t.generation
    ensures Step(t, TimerFires(stamp)) == t
  {
    hide AdaptersOk, ActivateFallback;
  }

  /** A timer that is not out of date always acts: the checks behind the stamp never stop it. */
  lemma CurrentTimerActs(selected: string, prompt: bool, ops: seq<Op>, stamp: nat)
    requires var t := Run(Start(selected, prompt), ops); stamp in t.stamps && stamp == t.generation
    ensures var t := Run(Start(selected, prompt), ops); !t.usingFallback && !t.primaryConnected && Step(t, TimerFires(stamp)) != t
  {
    hide AdaptersOk, Step;
    var t := Run(Start(selected, prompt), ops);
    StartInv(selected, prompt);
    RunKeepsInv(Start(selected, prompt), ops);
    CurrentActs(t, stamp);
  }

  lemma CurrentActs(t: Transport, stamp: nat)
    requires Inv(t) && stamp in t.stamps && stamp == t.generation
    ensures Step(t, TimerFires(stamp)) != t
  {
    hide ActivateFallback;
    if CanActivate(t) {
      ActivateKeeps(t);
    } else {
      assert |Step(t, TimerFires(stamp)).emitted| == |t.emitted| + 2;
    }
  }

  // ----- the fallback is for the selected room only

  predicate Named(a: Adapter) {
    a.room.Some? ==> a.partner.Some? && a.partner.value != ""
  }

  ghost predicate AllNamed(t: Transport) {
    forall i :: 0 <= i < |t.adapters| ==> Named(t.adapters[i])
  }

  predicate InSelectedRoom(t: Transport) {
    t.usingFallback ==> FallbackAllowedForRoom(Active(t).room, t.selected)
  }

  predicate NamesPartner(op: Op) {
    (op.Preconnect? || op.SwitchPartner?) ==> op.partner != ""
  }

  /** An activation ends in the selected room exactly if the call had a named partner. */
  lemma ActivationRoom(t: Transport)
    requires AdaptersOk(t) && CanActivate(t)
    ensures var u := ActivateFallback(t);
            && u.usingFallback
            && (FallbackAllowedForRoom(Active(u).room, u.selected) <==> Active(t).partner.Some? && Active(t).partner.value != "")
            && (AllNamed(t) ==> AllNamed(u) && InSelectedRoom(u))
  {
    hide ActivateFallback, AdaptersOk, Attached;
    ActivationShape(t);
    var u := ActivateFallback(t);
    assert Active(u) == Successor(Active(t), t.serial);
    if AllNamed(t) {
      assert Named(Active(t));
      assert Named(Abandon(Active(t)));
      assert Named(Successor(Active(t), t.serial));
    }
  }

  lemma RestoreRooms(t: Transport, room: string)
    requires AdaptersOk(t) && AllNamed(t)
    ensures var u := RestorePrimary(ClearTimer(t).(primaryConnected := false), room);
            AllNamed(u) && u.selected == t.selected && (u.usingFallback ==> FallbackAllowedForRoom(Some(room), t.selected))
  {
    hide OffAll, Attached, PeersAccounted, Dormant, BoundOnce;
    var c := ClearTimer(t).(primaryConnected := false);
    if t.usingFallback && !FallbackAllowedForRoom(Some(room), t.selected) {
      RestoreShape(c, room);
      assert Named(t.adapters[0]) && Named(Active(t)) && Named(Abandon(Active(t)));
    }
  }

  /** Replacing the active adapter by one that is in a room with a named partner. */
  lemma NamedUpdate(t: Transport, a: Adapter)
    requires AllNamed(t) && Named(a)
    ensures AllNamed(WithActive(t, a)) && Active(WithActive(t, a)) == a
  {
  }

  lemma ForwardRooms(t: Transport, e: Event)
    requires AdaptersOk(t) && AllNamed(t) && InSelectedRoom(t)
    ensures AllNamed(Forward(t, e)) && InSelectedRoom(Forward(t, e))
  {
    hide ActivateFallback, AdaptersOk, FallbackAllowedForRoom;
    var c := ClearTimer(t);
    SameAdapters(t, c);
    if e.Failed? && CanActivate(c) {
      ActivationRoom(c);
    }
  }

  /** Delivering the connected event moves nobody to another room. */
  lemma ConnectedRooms(t: Transport)
    requires AdaptersOk(t)
    ensures var hs := ListenersOf(Active(t).listeners, Connected); var u := DeliverConnected(t, hs);
            u.adapters == t.adapters && u.active == t.active && u.usingFallback == t.usingFallback && u.selected == t.selected
  {
    hide DeliverConnected, AdaptersOk, ListenersOf;
    OneForward(t, Connected);
  }

  lemma StepRooms(t: Transport, op: Op)
    requires Inv(t) && AllNamed(t) && InSelectedRoom(t) && NamesPartner(op)
    ensures AllNamed(Step(t, op)) && InSelectedRoom(Step(t, op))
  {
    hide ActivateFallback, AdaptersOk, Forward, Deliver, DeliverConnected, RestorePrimary, FallbackAllowedForRoom, AllNamed, OpenActive, ReplacePeer, OffAll;
    match op
    case Preconnect(room, partner) =>
      RestoreRooms(t, room);
      var u := RestorePrimary(ClearTimer(t).(primaryConnected := false), room);
      PlacedIn(Active(u), room, partner);
      NamedUpdate(u, AdapterPreconnect(Active(u), room, partner));
      SameNames(WithActive(u, AdapterPreconnect(Active(u), room, partner)), Step(t, op));
    case OpenRound =>
      var c := t.(primaryConnected := false);
      SameAdapters(t, c);
      OpenShape(c);
      ActiveNamed(t);
      SameNames(t, c);
      NamedUpdate(c, AdapterOpen(Active(c)));
      SameNames(WithActive(c, AdapterOpen(Active(c))), Step(t, op));
    case SwitchPartner(room, partner) =>
      RestoreKeepsInv(t, room);
      RestoreRooms(t, room);
      var u := RestorePrimary(ClearTimer(t).(primaryConnected := false), room);
      var b := AdapterSwitch(Active(u), room, partner);
      PlacedIn(Active(u), room, partner);
      NamedUpdate(u, b);
      var v := AcquireMedia(WithActive(u, b));
      SwitchedOk(u, room, partner);
      ConnectedRooms(v);
      SameNames(WithActive(u, b), Step(t, op));
    case Leave =>
      UnbindRooms(t);
    case ForceFallback =>
      if CanActivate(t) { ActivationRoom(t); }
    case AdapterEmits(i, e) =>
      EmitKeeps(t, i, e);
      ForwardRooms(t, e);
    case TimerFires(stamp) =>
      if CanActivate(t) { ActivationRoom(t); }
      SameNames(t, t.(emitted := t.emitted + [Degraded, Failed]));
  }

  lemma ActiveNamed(t: Transport)
    requires AllNamed(t)
    ensures Named(Active(t))
  {
  }

  lemma SameNames(t: Transport, u: Transport)
    requires u.adapters == t.adapters
    ensures AllNamed(t) <==> AllNamed(u)
  {
  }

  lemma PlacedIn(a: Adapter, room: string, partner: string)
    requires partner != ""
    ensures var p, s := AdapterPreconnect(a, room, partner), AdapterSwitch(a, room, partner);
            Named(p) && Named(s) && p.room == Some(room) && s.room == Some(room)
  {
  }

  lemma SwitchedOk(u: Transport, room: string, partner: string)
    requires AdaptersOk(u)
    ensures AdaptersOk(AcquireMedia(WithActive(u, AdapterSwitch(Active(u), room, partner))))
  {
    hide AdaptersOk, PeersAccounted, ReplacePeer;
    var a := Active(u).(room := Some(room), partner := Some(partner));
    ActiveAccounted(u);
    AccountIgnores(Active(u), a);
    ReplaceKeepsAccount(a);
    var b := AdapterSwitch(Active(u), room, partner);
    AccountIgnores(ReplacePeer(a), b);
    ReplaceKeepsListeners(a);
    UpdateKeepsAdapters(u, b);
    SameAdapters(WithActive(u, b), AcquireMedia(WithActive(u, b)));
  }

  lemma UnbindRooms(t: Transport)
    requires AllNamed(t)
    ensures AllNamed(Step(t, Leave)) && InSelectedRoom(Step(t, Leave))
  {
    hide OffAll;
    var u := Step(t, Leave);
    forall i | 0 <= i < |u.adapters| ensures Named(u.adapters[i]) {
      assert Named(t.adapters[i]);
    }
  }

  lemma {:induction false} RunRooms(t: Transport, ops: seq<Op>)
    requires Inv(t) && AllNamed(t) && InSelectedRoom(t)
    requires forall k :: 0 <= k < |ops| ==> NamesPartner(ops[k])
    ensures AllNamed(Run(t, ops)) && InSelectedRoom(Run(t, ops))
  {
    hide Inv, Step, AllNamed, InSelectedRoom, NamesPartner;
    if ops != [] {
      var front := ops[..|ops| - 1];
      RunRooms(t, front);
      RunKeepsInv(t, front);
      StepRooms(Run(t, front), ops[|ops| - 1]);
    }
  }

  /** With named partners the fallback is only ever in use in the selected room. */
  lemma FallbackOnlyInSelectedRoom(selected: string, prompt: bool, ops: seq<Op>)
    requires forall k :: 0 <= k < |ops| ==> NamesPartner(ops[k])
    ensures InSelectedRoom(Run(Start(selected, prompt), ops))
  {
    hide Step, AdaptersOk, InSelectedRoom;
    StartInv(selected, prompt);
    assert AllNamed(Start(selected, prompt)) && InSelectedRoom(Start(selected, prompt)) by { StartNamed(selected, prompt); }
    RunRooms(Start(selected, prompt), ops);
  }

  lemma StartNamed(selected: string, prompt: bool)
    ensures AllNamed(Start(selected, prompt)) && InSelectedRoom(Start(selected, prompt))
  {
    hide On;
  }

  /** Without a partner name the fallback can be in use in no room at all. */
  lemma EmptyPartnerLosesTheRoom(selected: string, prompt: bool)
    requires selected != ""
    ensures !InSelectedRoom(Run(Start(selected, prompt), [Preconnect(selected, ""), ForceFallback]))
  {
    hide ActivateFallback, AdaptersOk, On;
    var t := Start(selected, prompt);
    StartInv(selected, prompt);
    StepKeepsInv(t, Preconnect(selected, ""));
    var u := Step(t, Preconnect(selected, ""));
    ActivationRoom(u);
    var ops := [Preconnect(selected, ""), ForceFallback];
    assert ops[..1] == [Preconnect(selected, "")] && ops[..1][..0] == [];
    assert Run(t, ops[..1]) == u && Run(t, ops) == ActivateFallback(u);
  }
}

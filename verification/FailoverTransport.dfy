/**
 The transports themselves: shared media, adapters and the failover transport as objects whose
 methods update them in place, each equal to its function of the `Failover` module.
 */
module FailoverTransport {
  import opened Wrappers
  import opened Failover

  class SharedLocalMedia {
    var getUserMediaCalls: nat
    var tracksLive: bool

    constructor ()
      ensures View() == Media(false, 0)
    {
      getUserMediaCalls, tracksLive := 0, false;
    }

    function View(): Media
      reads this
    {
      Media(tracksLive, getUserMediaCalls)
    }

    method AcquireTracks()
      modifies this
      ensures View() == Acquire(old(View()))
    {
      if tracksLive {
        return;
      }
      getUserMediaCalls := getUserMediaCalls + 1;
      tracksLive := true;
    }

    method ReleaseTracks()
      modifies this
      ensures View() == old(View()).(live := false)
    {
      tracksLive := false;
    }
  }

  class LifecycleAdapter {
    const kind: Kind
    const media: SharedLocalMedia
    var state: MediaState
    var room: Option<string>
    var partner: Option<string>
    var muted: bool
    var peerGeneration: nat
    var peer: Option<nat>
    var abandoned: seq<nat>
    var listeners: Listeners

    constructor (kind: Kind, media: SharedLocalMedia)
      ensures View() == NewAdapter(kind) && this.media == media
    {
      this.kind, this.media := kind, media;
      state, room, partner, muted := Idle, None, None, true;
      peerGeneration, peer, abandoned, listeners := 0, None, [], NoListeners;
    }

    function View(): Adapter
      reads this
    {
      Adapter(kind, state, room, partner, muted, peerGeneration, peer, abandoned, listeners)
    }

    method NewPeer()
      modifies this
      ensures View() == ReplacePeer(old(View()))
    {
      if peer.Some? {
        abandoned := abandoned + [peer.value];
      }
      peerGeneration := peerGeneration + 1;
      peer := Some(peerGeneration);
    }

    method Close()
      modifies this
      ensures View() == Abandon(old(View()))
    {
      if peer.Some? {
        abandoned := abandoned + [peer.value];
      }
      peer := None;
      listeners := NoListeners;
      state := Closed;
    }

    method PreconnectTo(newRoom: string, newPartner: string)
      modifies this, media
      ensures View() == AdapterPreconnect(old(View()), newRoom, newPartner)
      ensures media.View() == Acquire(old(media.View()))
    {
      room, partner, muted := Some(newRoom), Some(newPartner), true;
      NewPeer();
      media.AcquireTracks();
      state := Preconnected;
    }

    method Unmute()
      modifies this
      ensures View() == AdapterOpen(old(View()))
    {
      muted, state := false, Open;
    }

    method SwitchTo(newRoom: string, newPartner: string)
      modifies this, media
      ensures View() == AdapterSwitch(old(View()), newRoom, newPartner)
      ensures media.View() == Acquire(old(media.View()))
    {
      room, partner := Some(newRoom), Some(newPartner);
      NewPeer();
      media.AcquireTracks();
      muted, state := false, Open;
    }

    method LeaveCall()
      modifies this
      ensures View() == AdapterLeave(old(View()))
    {
      muted, room, partner := true, None, None;
      Close();
    }

    method AddListener(h: Handler)
      modifies this`listeners
      ensures listeners == On(old(listeners), h)
    {
      if h.event !in listeners {
        listeners := listeners[h.event := []];
      }
      listeners := listeners[h.event := listeners[h.event] + [h]];
    }

    method AddFour(h: Handler, i: Handler, j: Handler, k: Handler)
      modifies this`listeners
      ensures listeners == On(On(On(On(old(listeners), h), i), j), k)
    {
      hide On;
      AddListener(h);
      AddListener(i);
      AddListener(j);
      AddListener(k);
    }

    method RemoveListener(h: Handler)
      modifies this`listeners
      ensures listeners == Off(old(listeners), h)
    {
      if h.event in listeners {
        var i := 0;
        var hs := listeners[h.event];
        while i < |hs| && hs[i] != h
          invariant 0 <= i <= |hs|
          invariant forall j :: 0 <= j < i ==> hs[j] != h
        {
          i := i + 1;
        }
        RemoveFirstAt(hs, h, i);
        if i < |hs| {
          listeners := listeners[h.event := hs[..i] + hs[i + 1..]];
        }
      }
    }
  }

  /** The first registration of a handler, if there is one, is the one that goes. */
  lemma {:induction false} RemoveFirstAt(hs: seq<Handler>, h: Handler, i: nat)
    requires i <= |hs| && (forall j :: 0 <= j < i ==> hs[j] != h) && (i < |hs| ==> hs[i] == h)
    ensures RemoveFirst(hs, h) == if i < |hs| then hs[..i] + hs[i + 1..] else hs
    decreases i
  {
    if i > 0 {
      RemoveFirstAt(hs[1..], h, i - 1);
      assert hs == [hs[0]] + hs[1..];
    }
  }

  function Views(s: seq<LifecycleAdapter>): (r: seq<Adapter>)
    reads s
    ensures |r| == |s| && forall i :: 0 <= i < |s| ==> r[i] == s[i].View()
  {
    seq(|s|, i requires 0 <= i < |s| reads s => s[i].View())
  }

  /** The failover transport. `adapters` lists every adapter there ever was, and `at` is the active one. */
  class FailoverMediaTransport {
    const selectedRoom: string
    const prompt: bool
    const media: SharedLocalMedia
    const primary: LifecycleAdapter
    var active: LifecycleAdapter
    ghost var adapters: seq<LifecycleAdapter>
    ghost var at: nat
    var usingFallback: bool
    var primaryConnected: bool
    var bound: seq<Handler>
    var binds: nat
    var fallbackActivations: nat
    var generation: nat
    var stamps: set<nat>
    var emitted: seq<Event>

    ghost predicate Wired()
      reads this
    {
      && at < |adapters| && adapters[at] == active && adapters[0] == primary
      && (forall i, j :: 0 <= i < j < |adapters| ==> adapters[i] != adapters[j])
      && (forall i :: 0 <= i < |adapters| ==> adapters[i].media == media)
    }

    /** What every operation keeps: the wiring, and the accounting of peers, forwarders and stamps. */
    ghost predicate Valid()
      reads this, adapters, media
    {
      Wired() && Inv(View())
    }

    /** What anybody can see of it: at most one of all adapters has a live peer, and only the active one. */
    lemma OnlyActiveHasPeer()
      requires Valid()
      ensures forall i :: 0 <= i < |adapters| && adapters[i].peer.Some? ==> adapters[i] == active
      ensures forall i :: 0 <= i < |adapters| ==> adapters[i] == active || adapters[i].listeners == NoListeners
    {
      forall i | 0 <= i < |adapters| && i != at ensures adapters[i].peer.None? && adapters[i].listeners == NoListeners {
        assert Dormant(View().adapters[i]);
      }
    }

    ghost function View(): Transport
      requires Wired()
      reads this, adapters, media
    {
      Wiring(selectedRoom, prompt, Views(adapters), at, usingFallback, bound, binds, fallbackActivations, generation,
             stamps, primaryConnected, media.View(), emitted)
    }

    twostate lemma OnlyActive()
      requires old(Wired()) && Wired() && adapters == old(adapters) && at == old(at)
      requires forall i :: 0 <= i < |adapters| && i != at ==> adapters[i].View() == old(adapters[i].View())
      ensures Views(adapters) == old(Views(adapters))[at := active.View()]
    {
    }

    /** Appending a new adapter and making it active. */
    twostate lemma Appended(new relay: LifecycleAdapter)
      requires old(Wired()) && fresh(relay) && relay.media == media && relay.View() == NewAdapter(Relay)
      requires adapters == old(adapters) + [relay] && active == relay && at == |old(adapters)|
      requires forall i :: 0 <= i < |old(adapters)| ==> old(adapters)[i].View() == old(adapters[i].View())
      requires usingFallback && !primaryConnected && fallbackActivations == old(fallbackActivations) + 1
      requires bound == old(bound) && binds == old(binds) && generation == old(generation) && stamps == old(stamps)
      requires emitted == old(emitted) && media.View() == old(media.View())
      ensures Wired()
      ensures View() == old(View()).(adapters := old(View()).adapters + [NewAdapter(Relay)], active := |old(adapters)|,
                          usingFallback := true, primaryConnected := false, activations := old(fallbackActivations) + 1)
    {
      assert Views(adapters) == old(Views(adapters)) + [NewAdapter(Relay)];
    }

    lemma AdapterView(i: nat)
      requires Wired() && i < |adapters|
      ensures View().adapters[i] == adapters[i].View() && |View().adapters| == |adapters|
    {
    }

    lemma ActiveView()
      requires Wired()
      ensures Active(View()) == active.View()
    {
    }

    /** One adapter was added, and it is active. */
    twostate predicate OneMore()
      reads this
    {
      adapters == old(adapters) + [active] && fresh(active)
    }

    /** Nothing was rewired: the same adapters with the same one active. */
    twostate predicate SameWiring()
      reads this
    {
      adapters == old(adapters) && at == old(at) && active == old(active)
    }

    constructor (selectedRoom: string, prompt: bool)
      ensures Valid() && View() == Start(selectedRoom, prompt)
      ensures fresh(media) && forall i :: 0 <= i < |adapters| ==> fresh(adapters[i])
    {
      this.selectedRoom, this.prompt := selectedRoom, prompt;
      var m := new SharedLocalMedia();
      var direct := new LifecycleAdapter(Direct, m);
      media, primary, active := m, direct, direct;
      adapters, at := [direct], 0;
      usingFallback, primaryConnected := false, false;
      bound, binds, fallbackActivations, generation, stamps, emitted := [], 0, 0, 0, {}, [];
      new;
      assert View() == Wiring(selectedRoom, prompt, [NewAdapter(Direct)], 0, false, [], 0, 0, 0, {}, false, Media(false, 0), []);
      Bind();
      StartInv(selectedRoom, prompt);
    }

    method Emit(e: Event)
      requires Wired()
      modifies this`emitted
      ensures Wired() && View() == old(View()).(emitted := old(emitted) + [e])
    {
      emitted := emitted + [e];
    }

    method DropTimer()
      requires Wired()
      modifies this`generation
      ensures Wired() && View() == ClearTimer(old(View()))
    {
      generation := generation + 1;
    }

    method StartTimer()
      requires Wired()
      modifies this`generation, this`stamps
      ensures Wired() && View() == ArmTimer(old(View()))
    {
      DropTimer();
      if usingFallback || primaryConnected {
        return;
      }
      stamps := stamps + {generation};
    }

    method Bind()
      requires Wired()
      modifies this`bound, this`binds, active
      ensures Wired() && View() == BindActive(old(View()))
    {
      hide On, Views, Abandon;
      var hs := Forwarders(binds);
      active.AddFour(hs[0], hs[1], hs[2], hs[3]);
      bound, binds := hs, binds + 1;
      OnlyActive();
    }

    method Unbind()
      requires Wired()
      modifies this`bound, active
      ensures Wired() && View() == UnbindActive(old(View()))
    {
      for i := 0 to |bound|
        invariant Wired() && bound == old(bound)
        invariant active.View() == old(active.View()).(listeners := active.listeners)
        invariant OffAll(active.listeners, bound[i..]) == OffAll(old(active.listeners), bound)
      {
        active.RemoveListener(bound[i]);
      }
      bound := [];
    }

    /** The forwarder for the connected event. */
    method OnConnected()
      requires Wired()
      modifies this`primaryConnected, this`generation, this`emitted
      ensures Wired() && View() == ForwardConnected(old(View()))
    {
      primaryConnected := !usingFallback;
      DropTimer();
      Emit(Connected);
    }

    method CallConnected(hs: seq<Handler>)
      requires Wired()
      modifies this`primaryConnected, this`generation, this`emitted
      ensures Wired() && View() == DeliverConnected(old(View()), hs)
    {
      hide ForwardConnected;
      for i := 0 to |hs|
        invariant Wired()
        invariant DeliverConnected(View(), hs[i..]) == DeliverConnected(old(View()), hs)
      {
        if hs[i].event.Connected? {
          OnConnected();
        }
      }
    }

    /** Opens the active adapter, which reports the connection at once if adapters are prompt. */
    method OpenNow()
      requires Wired()
      modifies this`primaryConnected, this`generation, this`emitted, active
      ensures Wired() && View() == OpenActive(old(View()))
    {
      hide DeliverConnected;
      active.Unmute();
      OnlyActive();
      if prompt {
        CallConnected(if Connected in active.listeners then active.listeners[Connected] else []);
      }
    }

    method CloseKeepMedia()
      requires Wired()
      modifies this`bound, active
      ensures Wired() && View() == CloseActiveKeepMedia(old(View()))
    {
      hide UnbindActive, Abandon;
      Unbind();
      label unbound:
      active.Close();
      OnlyActive@unbound();
    }

    /** Makes a new relay the active adapter. */
    method InstallRelay()
      requires Wired()
      modifies this`active, this`adapters, this`at, this`usingFallback, this`primaryConnected, this`fallbackActivations
      ensures Wired() && OneMore()
      ensures View() == old(View()).(adapters := old(View()).adapters + [NewAdapter(Relay)], active := |old(adapters)|,
                          usingFallback := true, primaryConnected := false, activations := old(fallbackActivations) + 1)
    {
      hide Wired, Views;
      var relay := new LifecycleAdapter(Relay, media);
      active := relay;
      adapters, at := adapters + [relay], |adapters|;
      usingFallback, primaryConnected := true, false;
      fallbackActivations := fallbackActivations + 1;
      Appended(relay);
    }

    method CloseForRelay()
      requires Wired()
      modifies this`generation, this`emitted, this`bound, active
      ensures Wired()
      ensures View() == CloseActiveKeepMedia(ClearTimer(old(View())).(emitted := old(emitted) + [Degraded]))
      ensures View().activations == old(View()).activations
    {
      hide CloseActiveKeepMedia, Wired, Views;
      DropTimer();
      Emit(Degraded);
      CloseKeepMedia();
    }

    /** Closes the active adapter and puts a new relay in its place. */
    method PutRelay()
      requires Wired()
      modifies this`active, this`adapters, this`at, this`usingFallback, this`primaryConnected, this`fallbackActivations
      modifies this`generation, this`emitted, this`bound, this`binds, active
      ensures Wired() && View() == TakeOver(old(View()))
      ensures OneMore()
    {
      hide CloseActiveKeepMedia, BindActive, Wired, Views, ClearTimer, Forwarders, Attached, FallbackAllowedForRoom;
      ghost var t := View();
      CloseForRelay();
      ghost var closed := View();
      InstallRelay();
      ghost var u := View();
      assert u == closed.(adapters := closed.adapters + [NewAdapter(Relay)], active := |closed.adapters|,
                          usingFallback := true, primaryConnected := false, activations := t.activations + 1);
      Bind();
      assert View() == BindActive(u);
    }

    /** The active adapter joins a room. */
    method JoinRoom(roomId: string, partnerId: string)
      requires Wired()
      modifies active, media
      ensures Wired()
      ensures View() == AcquireMedia(WithActive(old(View()), AdapterPreconnect(Active(old(View())), roomId, partnerId)))
    {
      hide AdapterPreconnect;
      active.PreconnectTo(roomId, partnerId);
      OnlyActive();
    }

    method Activate() returns (done: bool)
      requires Wired()
      modifies this, active, media
      ensures Wired() && done == CanActivate(old(View()))
      ensures View() == if done then ActivateFallback(old(View())) else old(View())
      ensures if done then OneMore() else SameWiring()
    {
      hide TakeOver, AdapterPreconnect, Acquire, OpenActive, Wired, Views;
      ActiveView();
      if usingFallback {
        return false;
      }
      ghost var t := View();
      var roomId, partnerId := active.room, active.partner;
      if !FallbackAllowedForRoom(roomId, selectedRoom) {
        return false;
      }
      var wasOpen := active.state.Open?;
      PutRelay();
      ghost var u := View();
      if roomId.Some? && roomId.value != "" && partnerId.Some? && partnerId.value != "" {
        JoinRoom(roomId.value, partnerId.value);
        if wasOpen {
          OpenNow();
        }
      }
      assert View() == ActivateFallback(t);
      return true;
    }

    method RestoreIfNeeded(newRoom: string)
      requires Wired()
      modifies this, active, primary
      ensures Wired() && View() == RestorePrimary(old(View()), newRoom) && adapters == old(adapters)
      ensures active == old(active) || active == primary
    {
      hide CloseActiveKeepMedia, BindActive, Wired, Views, ClearTimer, Forwarders, Attached, FallbackAllowedForRoom;
      if !usingFallback || FallbackAllowedForRoom(Some(newRoom), selectedRoom) {
        return;
      }
      DropTimer();
      CloseKeepMedia();
      UsePrimary();
      Bind();
    }

    method UsePrimary()
      requires Wired()
      modifies this`active, this`at, this`usingFallback, this`primaryConnected
      ensures Wired() && active == primary
      ensures View() == old(View()).(active := 0, usingFallback := false, primaryConnected := false)
    {
      active := primary;
      at := 0;
      usingFallback, primaryConnected := false, false;
      BackToPrimary();
    }

    /** The first adapter is the primary one. */
    twostate lemma BackToPrimary()
      requires old(Wired()) && adapters == old(adapters) && active == primary && at == 0
      requires forall i :: 0 <= i < |adapters| ==> adapters[i].View() == old(adapters[i].View())
      ensures Wired() && Views(adapters) == old(Views(adapters))
    {
    }

    method OnActiveFailedEvent()
      requires Wired()
      modifies this, active, media
      ensures Wired() && View() == OnActiveFailed(old(View())) && Grown()
    {
      hide ActivateFallback, Wired, Views, FallbackAllowedForRoom;
      var done := Activate();
      if !done {
        Emit(Failed);
      }
    }

    /** The forwarder for any event. */
    method OnEvent(e: Event)
      requires Wired()
      modifies this, active, media
      ensures Wired() && View() == Forward(old(View()), e) && Grown()
    {
      hide OnActiveFailed, Wired, Views, ForwardConnected;
      match e
      case Connected => OnConnected();
      case Failed =>
        DropTimer();
        OnActiveFailedEvent();
      case _ => Emit(e);
    }

    /** The adapters so far stay, and those that were added are new. */
    twostate predicate Grown()
      reads this
    {
      && |adapters| >= |old(adapters)| && adapters[..|old(adapters)|] == old(adapters)
      && (forall i :: |old(adapters)| <= i < |adapters| ==> fresh(adapters[i]))
      && (active == old(active) || fresh(active))
    }

    /** An event of an adapter, whichever forwarders listen to it there. */
    method AdapterEvent(adapter: LifecycleAdapter, e: Event, ghost i: nat)
      requires Valid() && i < |adapters| && adapters[i] == adapter
      modifies this, active, media
      ensures Valid() && Grown()
      ensures View() == Step(old(View()), AdapterEmits(i, e))
    {
      hide Forward, Wired, Views, Inv;
      StepKeepsInv(View(), AdapterEmits(i, e));
      AdapterView(i);
      var hs := if e in adapter.listeners then adapter.listeners[e] else [];
      for k := 0 to |hs|
        invariant Wired() && Grown()
        invariant Deliver(View(), hs[k..]) == Deliver(old(View()), hs)
      {
        OnEvent(hs[k].event);
      }
    }

    /** A timer that was armed with this stamp. */
    method OnEscalationTimeout(stamp: nat)
      requires Valid() && stamp in stamps
      modifies this, active, media
      ensures Valid() && View() == Step(old(View()), TimerFires(stamp)) && Grown()
    {
      hide ActivateFallback, Wired, Views, Inv;
      StepKeepsInv(View(), TimerFires(stamp));
      if stamp != generation {
        return;
      }
      if usingFallback || primaryConnected {
        return;
      }
      ActiveView();
      if !FallbackAllowedForRoom(active.room, selectedRoom) {
        Emit(Degraded);
        Emit(Failed);
        assert View().emitted == old(View()).emitted + [Degraded, Failed];
        return;
      }
      var ok := Activate();
    }

    // ----- the operations

    method PreconnectRound(roomId: string, partnerId: string)
      requires Valid()
      modifies this, active, primary, media
      ensures Valid() && View() == Step(old(View()), Preconnect(roomId, partnerId)) && adapters == old(adapters)
    {
      hide Inv, RestorePrimary, Wired, Views, AdapterPreconnect;
      StepKeepsInv(View(), Preconnect(roomId, partnerId));
      RestoreFor(roomId);
      JoinRoom(roomId, partnerId);
    }

    method ForgetConnection()
      requires Wired()
      modifies this`primaryConnected
      ensures Wired() && View() == old(View()).(primaryConnected := false)
    {
      primaryConnected := false;
    }

    method OpenCall()
      requires Valid()
      modifies this, active
      ensures Valid() && View() == Step(old(View()), OpenRound) && SameWiring()
    {
      hide Inv, OpenActive, Wired, Views, ArmTimer;
      StepKeepsInv(View(), OpenRound);
      ForgetConnection();
      OpenNow();
      StartTimer();
    }

    method SwitchCall(roomId: string, partnerId: string)
      requires Valid()
      modifies this, active, primary, media
      ensures Valid() && View() == Step(old(View()), SwitchPartner(roomId, partnerId)) && adapters == old(adapters)
    {
      hide Inv, RestorePrimary, Wired, Views, AdapterSwitch, ArmTimer, DeliverConnected;
      StepKeepsInv(View(), SwitchPartner(roomId, partnerId));
      RestoreFor(roomId);
      SwitchHere(roomId, partnerId);
    }

    /** The older timer is dropped and the right adapter made active. */
    method RestoreFor(roomId: string)
      requires Wired()
      modifies this, active, primary
      ensures Wired() && View() == RestorePrimary(ClearTimer(old(View())).(primaryConnected := false), roomId) && adapters == old(adapters)
      ensures active == old(active) || active == primary
    {
      hide RestorePrimary, Wired, Views;
      ghost var t := View();
      DropTimer();
      ForgetConnection();
      assert View() == ClearTimer(t).(primaryConnected := false);
      RestoreIfNeeded(roomId);
    }

    /** The active adapter switches, and reports the connection at once if adapters are prompt. */
    method SwitchHere(roomId: string, partnerId: string)
      requires Wired()
      modifies this`primaryConnected, this`generation, this`emitted, this`stamps, active, media
      ensures Wired()
      ensures var v := AcquireMedia(WithActive(old(View()), AdapterSwitch(Active(old(View())), roomId, partnerId)));
              View() == ArmTimer(if v.prompt then DeliverConnected(v, ListenersOf(Active(v).listeners, Connected)) else v)
    {
      hide Wired, Views, AdapterSwitch, ArmTimer, DeliverConnected;
      SwitchRoom(roomId, partnerId);
      ActiveView();
      if prompt {
        CallConnected(if Connected in active.listeners then active.listeners[Connected] else []);
      }
      StartTimer();
    }

    method SwitchRoom(roomId: string, partnerId: string)
      requires Wired()
      modifies active, media
      ensures Wired()
      ensures View() == AcquireMedia(WithActive(old(View()), AdapterSwitch(Active(old(View())), roomId, partnerId)))
    {
      hide AdapterSwitch;
      active.SwitchTo(roomId, partnerId);
      OnlyActive();
    }

    method LeaveActive()
      requires Wired()
      modifies active
      ensures Wired() && View() == WithActive(old(View()), AdapterLeave(Active(old(View()))))
    {
      hide AdapterLeave;
      active.LeaveCall();
      OnlyActive();
    }

    method LeaveSession()
      requires Valid()
      modifies this, active, media
      ensures Valid() && View() == Step(old(View()), Leave) && SameWiring()
    {
      hide Inv, UnbindActive, AdapterLeave, Wired, Views, ClearTimer;
      StepKeepsInv(View(), Leave);
      DropTimer();
      Unbind();
      ghost var u := View();
      LeaveActive();
      assert View() == WithActive(u, AdapterLeave(Active(u)));
      EndUse();
    }

    method EndUse()
      requires Wired()
      modifies this`usingFallback, this`primaryConnected, media
      ensures Wired() && View() == old(View()).(media := old(View()).media.(live := false), usingFallback := false, primaryConnected := false)
    {
      media.ReleaseTracks();
      usingFallback, primaryConnected := false, false;
    }

    method ForceFallbackNow() returns (done: bool)
      requires Valid()
      modifies this, active, media
      ensures Valid() && View() == Step(old(View()), ForceFallback) && done == CanActivate(old(View())) && Grown()
    {
      hide Inv, ActivateFallback, Wired, Views, FallbackAllowedForRoom;
      StepKeepsInv(View(), ForceFallback);
      done := Activate();
    }
  }
}

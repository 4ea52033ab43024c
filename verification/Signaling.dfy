/**
 One side of the call: the negotiation state of its peer connection, the rules by which the
 connection accepts descriptions, and the handlers that react to offers and answers.
 */
module Signaling {
  import opened Wrappers

  /** An offer is named by who made it and a serial number; an answer names the offer it answers. */
  datatype OfferId = OfferId(maker: string, serial: nat)

  datatype Message = Offer(id: OfferId) | Answer(id: OfferId)

  /** What the signalling channel delivers: offers, answers, network candidates, anything else. */
  datatype Incoming = Signal(message: Message) | Candidate(candidate: string) | Unknown

  datatype SignalingState = Stable | HaveLocalOffer(local: OfferId) | HaveRemoteOffer(remote: OfferId)

  /** The peer connection: where negotiation stands and which offer was agreed last. */
  datatype Connection = Connection(sig: SignalingState, agreed: Option<OfferId>, next: nat)

  // ----- what the connection accepts (section 3.2 of RFC 8829)

  /** setLocalDescription() without an argument: an offer, or the answer to a pending remote offer. */
  function SetLocal(c: Connection, me: string): Connection {
    match c.sig
    case HaveRemoteOffer(id) => c.(sig := Stable, agreed := Some(id))
    case _ => c.(sig := HaveLocalOffer(OfferId(me, c.next)), next := c.next + 1)
  }

  function Rollback(c: Connection): Option<Connection> {
    if c.sig.Stable? then None else Some(c.(sig := Stable))
  }

  function SetRemoteOffer(c: Connection, id: OfferId): Option<Connection> {
    if c.sig.HaveLocalOffer? then None else Some(c.(sig := HaveRemoteOffer(id)))
  }

  function SetRemoteAnswer(c: Connection, id: OfferId): Option<Connection> {
    if c.sig.HaveLocalOffer? then Some(c.(sig := Stable, agreed := Some(id))) else None
  }

  // ----- what a handler does as a whole

  /** The outcome of a handler: the connection, what it sent, and whether it reported a failure. */
  datatype Reaction = Reaction(c: Connection, sent: seq<Message>, ignored: bool, failed: bool)

  /** The connection raises negotiationneeded only while it is stable. */
  function OnNeeded(c: Connection, me: string): Reaction
    requires c.sig.Stable?
  {
    var d := SetLocal(c, me);
    Reaction(d, [Offer(d.sig.local)], false, false)
  }

  /** An offer made on demand: nothing stops it while an earlier offer is still open. */
  function OnManual(c: Connection, me: string): Reaction {
    if c.sig.HaveRemoteOffer? then Reaction(c, [], false, false)
    else
      var d := SetLocal(c, me);
      Reaction(d, [Offer(d.sig.local)], false, false)
  }

  /** A colliding offer is ignored by the impolite side and makes the polite side roll back. */
  function OnOffer(c: Connection, me: string, polite: bool, making: bool, id: OfferId): Reaction {
    var collision := making || !c.sig.Stable?;
    if collision && !polite then Reaction(c, [], true, false)
    else
      var rolled := if collision then Rollback(c) else Some(c);
      if rolled.None? then Reaction(c, [], false, true)
      else
        Reaction(SetLocal(SetRemoteOffer(rolled.value, id).value, me), [Answer(id)], false, false)
  }

  function OnAnswer(c: Connection, id: OfferId): Reaction {
    var done := SetRemoteAnswer(c, id);
    if done.None? then Reaction(c, [], false, true) else Reaction(done.value, [], false, false)
  }

  /**
   The three outcomes of an offer: the impolite side ignores one that collides; a roll back that
   finds nothing to roll back fails; otherwise it is agreed, answered and nothing stays open.
   */
  lemma OfferOutcome(c: Connection, me: string, polite: bool, making: bool, id: OfferId)
    ensures var r := OnOffer(c, me, polite, making, id);
            && (r.ignored <==> !polite && (making || c.sig != Stable))
            && (r.failed <==> polite && making && c.sig == Stable)
            && (r.ignored || r.failed ==> r.c == c && r.sent == [])
            && (!r.ignored && !r.failed ==> r.c == Connection(Stable, Some(id), c.next) && r.sent == [Answer(id)])
  {
  }

  /** An answer is agreed exactly if an own offer is open, and is a failure otherwise. */
  lemma AnswerOutcome(c: Connection, id: OfferId)
    ensures var r := OnAnswer(c, id);
            && (r.failed <==> !c.sig.HaveLocalOffer?) && !r.ignored && r.sent == []
            && r.c == if c.sig.HaveLocalOffer? then Connection(Stable, Some(id), c.next) else c
  {
  }

  /** An own offer is a new one, stays open, is sent, and changes nothing that was agreed. */
  lemma OwnOfferOutcome(c: Connection, me: string)
    ensures var r := OnManual(c, me); var id := OfferId(me, c.next);
            && !r.failed && !r.ignored
            && (c.sig.HaveRemoteOffer? ==> r.c == c && r.sent == [])
            && (!c.sig.HaveRemoteOffer? ==> r.c == Connection(HaveLocalOffer(id), c.agreed, c.next + 1) && r.sent == [Offer(id)])
    ensures c.sig.Stable? ==> OnNeeded(c, me) == OnManual(c, me)
  {
  }

  // ----- roles

  /** String comparison by code units, a proper prefix being smaller. */
  predicate StringLess(a: string, b: string) {
    b != [] && (a == [] || a[0] < b[0] || (a[0] == b[0] && StringLess(a[1..], b[1..])))
  }

  /** The first place where two strings differ has the smaller character in a, or a ends there. */
  ghost predicate SmallerAt(a: string, b: string, k: nat) {
    && k <= |a| && k < |b| && a[..k] == b[..k]
    && (k < |a| ==> a[k] < b[k])
  }

  /** The polite side is the one whose id is smaller where the two first differ. */
  lemma {:induction false} PoliteIff(a: string, b: string)
    ensures StringLess(a, b) <==> exists k: nat :: SmallerAt(a, b, k)
  {
    SameHeads(a, b);
    if a == [] || b == [] || a[0] != b[0] {
      assert StringLess(a, b) ==> SmallerAt(a, b, 0);
    } else {
      PoliteIff(a[1..], b[1..]);
      if k: nat :| SmallerAt(a[1..], b[1..], k) {
        assert a[..k + 1] == [a[0]] + a[1..][..k] && b[..k + 1] == [b[0]] + b[1..][..k];
        assert SmallerAt(a, b, k + 1);
      }
      if k: nat :| SmallerAt(a, b, k) {
        assert k > 0;
        SmallerInRest(a, b, k);
      }
    }
  }

  lemma SameHeads(a: string, b: string)
    ensures forall k: nat :: SmallerAt(a, b, k) && k > 0 ==> a != [] && b != [] && a[0] == b[0]
  {
    forall k: nat | SmallerAt(a, b, k) && k > 0 ensures a != [] && b != [] && a[0] == b[0] {
      assert a[..k][0] == b[..k][0];
    }
  }

  lemma SmallerInRest(a: string, b: string, k: nat)
    requires SmallerAt(a, b, k) && k > 0
    ensures SmallerAt(a[1..], b[1..], k - 1)
  {
    assert a[1..][..k - 1] == a[..k][1..] && b[1..][..k - 1] == b[..k][1..];
  }

  /** Of two different participants exactly one is polite. */
  lemma {:induction false} ExactlyOnePolite(a: string, b: string)
    requires a != b
    ensures StringLess(a, b) <==> !StringLess(b, a)
  {
    if a != [] && b != [] && a[0] == b[0] {
      assert a == [a[0]] + a[1..] && b == [b[0]] + b[1..];
      ExactlyOnePolite(a[1..], b[1..]);
    }
  }

  /** The negotiator of one browser. What it hands to the signalling channel is appended to `sent`. */
  class PerfectNegotiator {
    const myId: string
    var partnerId: string
    var roomId: string
    var isPolite: bool
    var isMakingOffer: bool
    var ignoreOffer: bool
    var pc: Option<Connection>
    var sent: seq<(string, Message)>
    var failures: nat
    /** The remote candidates that the current connection took. */
    var candidates: seq<string>

    constructor (myId: string, partnerId: string, roomId: string)
      ensures this.myId == myId && this.partnerId == partnerId && this.roomId == roomId
      ensures isPolite == StringLess(myId, partnerId) && !isMakingOffer && !ignoreOffer
      ensures pc == Some(Connection(Stable, None, 0)) && sent == [] && failures == 0 && candidates == []
    {
      this.myId := myId;
      this.partnerId := partnerId;
      this.roomId := roomId;
      isPolite := StringLess(myId, partnerId);
      isMakingOffer, ignoreOffer := false, false;
      pc := Some(Connection(Stable, None, 0));
      sent, failures, candidates := [], 0, [];
    }

    /** The state after a reaction: connection, messages in this room, and the failure count. */
    twostate predicate Reacted(r: Reaction)
      reads this
    {
      && pc == Some(r.c)
      && |sent| == |old(sent)| + |r.sent| && sent[..|old(sent)|] == old(sent)
      && (forall k :: 0 <= k < |r.sent| ==> sent[|old(sent)| + k] == (roomId, r.sent[k]))
      && failures == old(failures) + (if r.failed then 1 else 0)
      && partnerId == old(partnerId) && roomId == old(roomId) && isPolite == old(isPolite)
    }

    method Send(m: Message)
      modifies this`sent
      ensures sent == old(sent) + [(roomId, m)]
    {
      sent := sent + [(roomId, m)];
    }

    method OnNegotiationNeeded()
      requires pc.Some? && pc.value.sig.Stable?
      modifies this`pc, this`sent, this`isMakingOffer
      ensures Reacted(OnNeeded(old(pc).value, myId)) && !isMakingOffer
    {
      isMakingOffer := true;
      pc := Some(SetLocal(pc.value, myId));
      Send(Offer(pc.value.sig.local));
      isMakingOffer := false;
    }

    method CreateManualOffer()
      modifies this`pc, this`sent, this`isMakingOffer
      ensures old(pc).None? ==> pc.None? && sent == old(sent) && isMakingOffer == old(isMakingOffer)
      ensures old(pc).Some? ==> Reacted(OnManual(old(pc).value, myId)) && !isMakingOffer
    {
      if pc.None? {
        return;
      }
      isMakingOffer := true;
      if !pc.value.sig.HaveRemoteOffer? {
        pc := Some(SetLocal(pc.value, myId));
        Send(Offer(pc.value.sig.local));
      }
      isMakingOffer := false;
    }

    method HandleRemoteOffer(id: OfferId)
      modifies this`pc, this`sent, this`ignoreOffer, this`failures
      ensures old(pc).None? ==> pc.None? && sent == old(sent) && failures == old(failures)
      ensures old(pc).Some? ==>
                var r := OnOffer(old(pc).value, myId, isPolite, isMakingOffer, id);
                Reacted(r) && ignoreOffer == r.ignored
    {
      if pc.None? {
        return;
      }
      var offerCollision := isMakingOffer || !pc.value.sig.Stable?;
      ignoreOffer := !isPolite && offerCollision;
      if ignoreOffer {
        return;
      }
      if offerCollision {
        var rolled := Rollback(pc.value);
        if rolled.None? {
          failures := failures + 1;
          return;
        }
        pc := rolled;
      }
      pc := SetRemoteOffer(pc.value, id);
      pc := Some(SetLocal(pc.value, myId));
      Send(Answer(id));
    }

    method HandleRemoteAnswer(id: OfferId)
      modifies this`pc, this`failures
      ensures old(pc).None? ==> pc.None? && failures == old(failures)
      ensures old(pc).Some? ==> Reacted(OnAnswer(old(pc).value, id))
    {
      if pc.None? {
        return;
      }
      var done := SetRemoteAnswer(pc.value, id);
      if done.None? {
        failures := failures + 1;
        return;
      }
      pc := done;
    }

    /** A candidate that the connection refuses is dropped without a report, whatever its state. */
    method HandleRemoteIceCandidate(candidate: string, taken: bool)
      modifies this`candidates
      ensures candidates == if pc.Some? && taken then old(candidates) + [candidate] else old(candidates)
    {
      if pc.None? {
        return;
      }
      if taken {
        candidates := candidates + [candidate];
      }
    }

    /** Messages of another room never reach the connection; `taken` tells whether it takes a candidate. */
    method HandleSignalingMessage(room: string, incoming: Incoming, taken: bool)
      modifies this`pc, this`sent, this`ignoreOffer, this`failures, this`candidates
      ensures room != roomId || old(pc).None? || !incoming.Signal? ==>
                pc == old(pc) && sent == old(sent) && failures == old(failures) && ignoreOffer == old(ignoreOffer)
      ensures room == roomId && old(pc).Some? && incoming.Signal? ==>
                var m := incoming.message;
                Reacted(if m.Offer? then OnOffer(old(pc).value, myId, isPolite, isMakingOffer, m.id) else OnAnswer(old(pc).value, m.id))
      ensures candidates == if room == roomId && old(pc).Some? && incoming.Candidate? && taken
                            then old(candidates) + [incoming.candidate] else old(candidates)
    {
      if room != roomId {
        return;
      }
      match incoming
      case Signal(Offer(id)) =>
        if pc.Some? { HandleRemoteOffer(id); }
      case Signal(Answer(id)) =>
        if pc.Some? { HandleRemoteAnswer(id); }
      case Candidate(candidate) => HandleRemoteIceCandidate(candidate, taken);
      case Unknown =>
    }

    /**
     A new round: a new connection, a new partner and hence possibly the other role. If the
     browser refuses the connection or its tracks, none is left and the failure is reported.
     */
    method SwitchPartner(newRoomId: string, newPartnerId: string, refused: bool) returns (thrown: bool)
      modifies this`pc, this`roomId, this`partnerId, this`isPolite, this`isMakingOffer, this`ignoreOffer, this`failures, this`candidates
      ensures thrown == refused && failures == old(failures) + (if refused then 1 else 0)
      ensures roomId == newRoomId && partnerId == newPartnerId && isPolite == StringLess(myId, newPartnerId)
      ensures !isMakingOffer && !ignoreOffer && candidates == []
      ensures refused ==> pc.None?
      ensures !refused ==> pc.Some? && pc.value.sig == Stable && pc.value.agreed == None
      ensures !refused && old(pc).Some? ==> pc.value.next == old(pc).value.next
    {
      var serial := if pc.Some? then pc.value.next else 0;
      pc, candidates := None, [];
      roomId, partnerId := newRoomId, newPartnerId;
      isPolite := StringLess(myId, partnerId);
      isMakingOffer, ignoreOffer := false, false;
      if refused {
        failures := failures + 1;
        return true;
      }
      pc := Some(Connection(Stable, None, serial));
      return false;
    }
  }
}

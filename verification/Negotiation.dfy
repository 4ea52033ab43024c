/**
 Two negotiators over two lossless first-in-first-out channels, every interleaving of new offers
 and deliveries. Offers are made from the stable state, as the negotiationneeded event does, or on
 demand in any state; which of the latter are harmless is proved exactly.
 */
module Negotiation {
  import opened Wrappers
  import opened Signaling

  datatype System = System(
    politeId: string, impoliteId: string,
    polite: Connection, impolite: Connection,
    toImpolite: seq<Message>, toPolite: seq<Message>)

  datatype Step = MakeOffer(byPolite: bool) | Demand(byPolite: bool) | Deliver(toPolitePeer: bool)

  predicate Enabled(s: System, step: Step) {
    match step
    case MakeOffer(byPolite) => if byPolite then s.polite.sig.Stable? else s.impolite.sig.Stable?
    case Demand(_) => true
    case Deliver(toPolitePeer) => if toPolitePeer then s.toPolite != [] else s.toImpolite != []
  }

  function React(c: Connection, me: string, polite: bool, m: Message): Reaction {
    match m
    case Offer(id) => OnOffer(c, me, polite, false, id)
    case Answer(id) => OnAnswer(c, id)
  }

  /** What the receiver of the next message does with it. */
  function Delivery(s: System, toPolitePeer: bool): Reaction
    requires Enabled(s, Deliver(toPolitePeer))
  {
    if toPolitePeer then React(s.polite, s.politeId, true, s.toPolite[0])
    else React(s.impolite, s.impoliteId, false, s.toImpolite[0])
  }

  function Next(s: System, step: Step): System
    requires Enabled(s, step)
  {
    match step
    case MakeOffer(true) =>
      var r := OnNeeded(s.polite, s.politeId);
      s.(polite := r.c, toImpolite := s.toImpolite + r.sent)
    case MakeOffer(false) =>
      var r := OnNeeded(s.impolite, s.impoliteId);
      s.(impolite := r.c, toPolite := s.toPolite + r.sent)
    case Demand(true) =>
      var r := OnManual(s.polite, s.politeId);
      s.(polite := r.c, toImpolite := s.toImpolite + r.sent)
    case Demand(false) =>
      var r := OnManual(s.impolite, s.impoliteId);
      s.(impolite := r.c, toPolite := s.toPolite + r.sent)
    case Deliver(true) =>
      var r := Delivery(s, true);
      s.(polite := r.c, toPolite := s.toPolite[1..], toImpolite := s.toImpolite + r.sent)
    case Deliver(false) =>
      var r := Delivery(s, false);
      s.(impolite := r.c, toImpolite := s.toImpolite[1..], toPolite := s.toPolite + r.sent)
  }

  predicate Initial(s: System) {
    && s.politeId != s.impoliteId
    && s.polite.sig == Stable && s.impolite.sig == Stable && s.polite.agreed == s.impolite.agreed
    && s.toImpolite == [] && s.toPolite == []
  }

  // ----- the states a call can be in

  predicate Holds(c: Connection, id: OfferId) {
    c.sig == HaveLocalOffer(id)
  }

  /** No offer of the impolite side is on its way or being answered. */
  predicate Quiet(s: System) {
    s.impolite.sig.Stable? &&
    match s.polite.sig {
    case Stable => s.toImpolite == [] && s.toPolite == [] && s.polite.agreed == s.impolite.agreed
    case HaveLocalOffer(y) =>
      || (s.toImpolite == [Offer(y)] && s.toPolite == [] && s.polite.agreed == s.impolite.agreed)
      || (s.toImpolite == [] && s.toPolite == [Answer(y)] && s.impolite.agreed == Some(y))
    case HaveRemoteOffer(_) => false
    }
  }

  predicate AllOffers(ms: seq<Message>) {
    forall k :: 0 <= k < |ms| ==> ms[k].Offer?
  }

  /** The impolite side's offer x has not reached the polite side yet; what it gets meanwhile it ignores. */
  predicate Offered(s: System) {
    s.impolite.sig.HaveLocalOffer? && !s.polite.sig.HaveRemoteOffer? &&
    var x := s.impolite.sig.local;
    || (AllOffers(s.toImpolite) && s.toPolite == [Offer(x)] && s.polite.agreed == s.impolite.agreed)
    || (s.polite.sig.HaveLocalOffer? && s.toImpolite == []
        && s.toPolite == [Answer(s.polite.sig.local), Offer(x)] && s.impolite.agreed == Some(s.polite.sig.local))
  }

  /** Where the answer of the polite side stands: last, or before the one offer made since. */
  function AnswerPlace(s: System): int {
    |s.toImpolite| - (if s.polite.sig.Stable? then 1 else 2)
  }

  /** The answer to x is on its way, behind offers that were rolled back and before at most one new offer. */
  predicate Answered(s: System) {
    s.impolite.sig.HaveLocalOffer? && s.toPolite == [] && !s.polite.sig.HaveRemoteOffer? &&
    var x, k := s.impolite.sig.local, AnswerPlace(s);
    && s.polite.agreed == Some(x)
    && k >= 0 && s.toImpolite[k] == Answer(x)
    && (s.polite.sig.HaveLocalOffer? ==> s.toImpolite[k + 1] == Offer(s.polite.sig.local))
    && (forall j :: 0 <= j < k ==> s.toImpolite[j].Offer? && !Holds(s.polite, s.toImpolite[j].id))
  }

  /** Serial numbers in use lie below the counters, so a new offer is really new. */
  predicate Numbered(s: System) {
    && (s.polite.sig.HaveLocalOffer? ==> s.polite.sig.local.serial < s.polite.next)
    && (s.impolite.sig.HaveLocalOffer? ==> s.impolite.sig.local.serial < s.impolite.next)
    && (forall k :: 0 <= k < |s.toImpolite| && s.toImpolite[k].Offer? ==> s.toImpolite[k].id.serial < s.polite.next)
  }

  predicate Inv(s: System) {
    Numbered(s) && (Quiet(s) || Offered(s) || Answered(s))
  }

  lemma InitialInv(s: System)
    requires Initial(s)
    ensures Inv(s)
  {
  }

  /** A new offer of the polite side from any state, and what it leaves as it was. */
  predicate PoliteOffers(s: System, t: System) {
    var y := OfferId(s.politeId, s.polite.next);
    && t.polite == s.polite.(sig := HaveLocalOffer(y), next := s.polite.next + 1)
    && t == s.(polite := t.polite, toImpolite := s.toImpolite + [Offer(y)])
  }

  lemma PoliteOfferIsNumbered(s: System, t: System)
    requires Numbered(s) && PoliteOffers(s, t)
    ensures Numbered(t)
  {
  }

  lemma QuietPoliteOffer(s: System, t: System)
    requires Quiet(s) && s.polite.sig.Stable? && PoliteOffers(s, t)
    ensures Quiet(t)
  {
  }

  lemma OfferedPoliteOffer(s: System, t: System)
    requires Offered(s) && PoliteOffers(s, t) && s.toPolite == [Offer(s.impolite.sig.local)]
    ensures Offered(t)
  {
  }

  lemma AnsweredPoliteOffer(s: System, t: System)
    requires Numbered(s) && Answered(s) && s.polite.sig.Stable? && PoliteOffers(s, t)
    ensures Answered(t)
  {
  }

  lemma ImpoliteOfferKeepsInv(s: System, t: System)
    requires Inv(s) && s.impolite.sig.Stable?
    requires var x := OfferId(s.impoliteId, s.impolite.next);
             t == s.(impolite := s.impolite.(sig := HaveLocalOffer(x), next := s.impolite.next + 1), toPolite := s.toPolite + [Offer(x)])
    ensures Inv(t)
  {
  }

  /** From the stable state an offer on demand is the same as one made by the event. */
  lemma DemandFromStable(s: System, byPolite: bool)
    requires Enabled(s, MakeOffer(byPolite))
    ensures Next(s, Demand(byPolite)) == Next(s, MakeOffer(byPolite))
  {
  }

  /** An offer on demand while none is open, or by the polite side while the impolite side's offer is all it will get. */
  predicate Harmless(s: System, byPolite: bool) {
    || Enabled(s, MakeOffer(byPolite))
    || (byPolite && s.impolite.sig.HaveLocalOffer? && s.toPolite == [Offer(s.impolite.sig.local)])
  }

  lemma DemandKeepsInv(s: System, byPolite: bool)
    requires Inv(s) && Harmless(s, byPolite)
    ensures Inv(Next(s, Demand(byPolite)))
  {
    hide Numbered, Quiet, Answered, Offered, AnswerPlace;
    var t := Next(s, Demand(byPolite));
    NothingRemote(s);
    if byPolite {
      assert PoliteOffers(s, t);
      PoliteOfferIsNumbered(s, t);
      if Quiet(s) {
        QuietIsStable(s);
        QuietPoliteOffer(s, t);
      } else if Offered(s) {
        OfferedStable(s);
        OfferedPoliteOffer(s, t);
      } else {
        AnsweredShape(s);
        AnsweredPoliteOffer(s, t);
      }
    } else {
      ImpoliteOfferKeepsInv(s, t);
    }
  }

  lemma NothingRemote(s: System)
    requires Inv(s)
    ensures !s.polite.sig.HaveRemoteOffer? && !s.impolite.sig.HaveRemoteOffer?
  {
  }

  lemma QuietIsStable(s: System)
    requires Quiet(s)
    ensures s.impolite.sig.Stable?
  {
  }

  lemma OfferedStable(s: System)
    requires Offered(s)
    ensures s.impolite.sig.HaveLocalOffer? && (s.polite.sig.Stable? ==> s.toPolite == [Offer(s.impolite.sig.local)])
  {
  }

  lemma AnsweredShape(s: System)
    requires Answered(s)
    ensures s.impolite.sig.HaveLocalOffer? && s.toPolite == []
  {
  }

  lemma DeliverToPoliteKeepsInv(s: System)
    requires Inv(s) && Enabled(s, Deliver(true))
    ensures Inv(Next(s, Deliver(true)))
  {
    var t := Next(s, Deliver(true));
    if Offered(s) && s.toPolite[0].Offer? {
      assert t.toImpolite == s.toImpolite + [Answer(s.impolite.sig.local)];
      assert Answered(t);
    }
  }

  lemma DeliverToImpoliteKeepsInv(s: System)
    requires Inv(s) && Enabled(s, Deliver(false))
    ensures Inv(Next(s, Deliver(false)))
  {
    var t := Next(s, Deliver(false));
    assert forall j :: 0 <= j < |t.toImpolite| ==> t.toImpolite[j] == s.toImpolite[j + 1];
    if Quiet(s) {
    } else if Offered(s) {
      assert Offered(t);
    } else if AnswerPlace(s) > 0 {
      assert Answered(t);
    } else {
      assert Quiet(t);
    }
  }

  /** A step that is no offer on demand, or one that is harmless. */
  predicate Safe(s: System, step: Step) {
    Enabled(s, step) && (step.Demand? ==> Harmless(s, step.byPolite))
  }

  lemma StepKeepsInv(s: System, step: Step)
    requires Inv(s) && Safe(s, step)
    ensures Inv(Next(s, step))
  {
    hide Inv, Next;
    match step
    case MakeOffer(byPolite) =>
      DemandFromStable(s, byPolite);
      DemandKeepsInv(s, byPolite);
    case Demand(byPolite) => DemandKeepsInv(s, byPolite);
    case Deliver(true) => DeliverToPoliteKeepsInv(s);
    case Deliver(false) => DeliverToImpoliteKeepsInv(s);
  }

  // ----- whole runs

  predicate CanRun(s: System, steps: seq<Step>)
    decreases |steps|
  {
    steps == [] || (Enabled(s, steps[0]) && CanRun(Next(s, steps[0]), steps[1..]))
  }

  function After(s: System, steps: seq<Step>): System
    requires CanRun(s, steps)
    decreases |steps|
  {
    if steps == [] then s else After(Next(s, steps[0]), steps[1..])
  }

  predicate SafeRun(s: System, steps: seq<Step>)
    decreases |steps|
  {
    steps == [] || (Safe(s, steps[0]) && SafeRun(Next(s, steps[0]), steps[1..]))
  }

  lemma {:induction false} RunKeepsInv(s: System, steps: seq<Step>)
    requires Inv(s) && SafeRun(s, steps)
    ensures CanRun(s, steps) && Inv(After(s, steps))
    decreases |steps|
  {
    hide Inv, Next, Harmless;
    if steps != [] {
      StepKeepsInv(s, steps[0]);
      RunKeepsInv(Next(s, steps[0]), steps[1..]);
    }
  }

  /** The next message fails, or answers another offer than its receiver holds. */
  predicate Misfit(t: System, toPolitePeer: bool) {
    Enabled(t, Deliver(toPolitePeer)) &&
    var m := if toPolitePeer then t.toPolite[0] else t.toImpolite[0];
    var receiver := if toPolitePeer then t.polite else t.impolite;
    Delivery(t, toPolitePeer).failed || (m.Answer? && !Holds(receiver, m.id))
  }

  lemma InvFits(t: System, toPolitePeer: bool)
    requires Inv(t) && Enabled(t, Deliver(toPolitePeer))
    ensures !Misfit(t, toPolitePeer)
    ensures var m := if toPolitePeer then t.toPolite[0] else t.toImpolite[0];
            var receiver := if toPolitePeer then t.polite else t.impolite;
            var sender := if toPolitePeer then t.impolite else t.polite;
            var r := Delivery(t, toPolitePeer);
            && (m.Answer? ==> r.c.agreed == Some(m.id))
            && (m.Offer? && toPolitePeer ==> Holds(sender, m.id))
            && (m.Offer? && !Holds(sender, m.id) ==> r == Reaction(receiver, [], true, false))
  {
  }

  /**
   Whatever the interleaving, harmless offers on demand included, no delivery fails: an answer finds
   its receiver still holding the very offer it answers, the polite side only ever sees the offer
   the impolite side holds, and an offer its maker no longer holds is ignored by the impolite side
   without any effect.
   */
  lemma EveryDeliveryFits(s: System, steps: seq<Step>, toPolitePeer: bool)
    requires Initial(s) && CanRun(s, steps) && SafeRun(s, steps) && Enabled(After(s, steps), Deliver(toPolitePeer))
    ensures var t := After(s, steps);
            var m := if toPolitePeer then t.toPolite[0] else t.toImpolite[0];
            var receiver := if toPolitePeer then t.polite else t.impolite;
            var sender := if toPolitePeer then t.impolite else t.polite;
            var r := Delivery(t, toPolitePeer);
            && !r.failed
            && (m.Answer? ==> Holds(receiver, m.id) && r.c.agreed == Some(m.id))
            && (m.Offer? && toPolitePeer ==> Holds(sender, m.id))
            && (m.Offer? && !Holds(sender, m.id) ==> r == Reaction(receiver, [], true, false))
  {
    hide Inv, Next, CanRun, SafeRun;
    InitialInv(s);
    RunKeepsInv(s, steps);
    InvFits(After(s, steps), toPolitePeer);
  }

  /** With nothing left in either channel both sides are stable and agree on the same offer. */
  lemma DrainedMeansAgreed(s: System, steps: seq<Step>)
    requires Initial(s) && CanRun(s, steps) && SafeRun(s, steps)
    requires After(s, steps).toPolite == [] && After(s, steps).toImpolite == []
    ensures var t := After(s, steps);
            t.polite.sig.Stable? && t.impolite.sig.Stable? && t.polite.agreed == t.impolite.agreed
  {
    hide CanRun, SafeRun, Next;
    InitialInv(s);
    RunKeepsInv(s, steps);
  }

  // ----- the channels drain, and always to the same agreement

  function Weight(ms: seq<Message>): nat {
    if ms == [] then 0 else Weight(ms[..|ms| - 1]) + (if ms[|ms| - 1].Offer? then 2 else 1)
  }

  function InFlight(s: System): nat {
    Weight(s.toPolite) + Weight(s.toImpolite)
  }

  lemma {:induction false} WeightSplits(m: Message, ms: seq<Message>)
    ensures Weight([m] + ms) == (if m.Offer? then 2 else 1) + Weight(ms)
  {
    var all := [m] + ms;
    if ms != [] {
      assert all[..|all| - 1] == [m] + ms[..|ms| - 1];
      WeightSplits(m, ms[..|ms| - 1]);
    } else {
      assert all[..0] == [];
    }
  }

  lemma WeightOf(ms: seq<Message>)
    requires ms != []
    ensures Weight(ms) == (if ms[0].Offer? then 2 else 1) + Weight(ms[1..])
  {
    assert ms == [ms[0]] + ms[1..];
    WeightSplits(ms[0], ms[1..]);
  }

  lemma DeliveryDropsWeight(s: System, toPolitePeer: bool)
    requires Enabled(s, Deliver(toPolitePeer))
    ensures InFlight(Next(s, Deliver(toPolitePeer))) < InFlight(s)
  {
    var r := Delivery(s, toPolitePeer);
    var back := if toPolitePeer then s.toImpolite else s.toPolite;
    WeightOf(if toPolitePeer then s.toPolite else s.toImpolite);
    if r.sent == [] {
      assert back + r.sent == back;
    } else {
      assert (back + r.sent)[..|back|] == back;
    }
  }

  /** What both sides will have agreed on once the messages now under way have been handled. */
  function Outcome(s: System): Option<OfferId> {
    if s.impolite.sig.HaveLocalOffer? && Answer(s.impolite.sig.local) !in s.toImpolite then
      Some(s.impolite.sig.local)
    else if s.polite.sig.HaveLocalOffer? then Some(s.polite.sig.local)
    else s.polite.agreed
  }

  lemma DeliveryToPoliteKeepsOutcome(s: System)
    requires Inv(s) && Enabled(s, Deliver(true))
    ensures Outcome(Next(s, Deliver(true))) == Outcome(s)
  {
    var t := Next(s, Deliver(true));
    if s.toPolite[0].Offer? {
      assert Offered(s);
      assert t.toImpolite[|t.toImpolite| - 1] == Answer(s.impolite.sig.local);
    } else {
      assert t.toImpolite == s.toImpolite;
    }
  }

  lemma DeliveryToImpoliteKeepsOutcome(s: System)
    requires Inv(s) && Enabled(s, Deliver(false))
    ensures Outcome(Next(s, Deliver(false))) == Outcome(s)
  {
    var t := Next(s, Deliver(false));
    if Answered(s) {
      var k := AnswerPlace(s);
      if k > 0 {
        assert t.toImpolite[k - 1] == s.toImpolite[k] == Answer(s.impolite.sig.local);
      } else {
        assert s.toImpolite[0] == Answer(s.impolite.sig.local);
      }
    }
  }

  lemma DeliveryKeepsOutcome(s: System, toPolitePeer: bool)
    requires Inv(s) && Enabled(s, Deliver(toPolitePeer))
    ensures Outcome(Next(s, Deliver(toPolitePeer))) == Outcome(s)
  {
    if toPolitePeer { DeliveryToPoliteKeepsOutcome(s); } else { DeliveryToImpoliteKeepsOutcome(s); }
  }

  predicate OnlyDeliveries(steps: seq<Step>) {
    forall k :: 0 <= k < |steps| ==> steps[k].Deliver?
  }

  lemma {:induction false} DeliveriesAreSafe(s: System, steps: seq<Step>)
    requires CanRun(s, steps) && OnlyDeliveries(steps)
    ensures SafeRun(s, steps)
    decreases |steps|
  {
    hide Next;
    if steps != [] {
      DeliveriesAreSafe(Next(s, steps[0]), steps[1..]);
    }
  }

  lemma {:induction false} DeliveriesDrain(s: System, steps: seq<Step>)
    requires Inv(s) && CanRun(s, steps) && OnlyDeliveries(steps)
    ensures Inv(After(s, steps)) && Outcome(After(s, steps)) == Outcome(s)
    ensures InFlight(After(s, steps)) + |steps| <= InFlight(s)
    decreases |steps|
  {
    hide Inv, Next, Outcome, InFlight;
    if steps != [] {
      var t := Next(s, steps[0]);
      StepKeepsInv(s, steps[0]);
      DeliveryKeepsOutcome(s, steps[0].toPolitePeer);
      DeliveryDropsWeight(s, steps[0].toPolitePeer);
      DeliveriesDrain(t, steps[1..]);
    }
  }

  /**
   From any reachable state, deliveries in any order stop after at most `InFlight` steps, and when
   none is left both sides are stable on the one agreement that was already settled at the start:
   the impolite side's open offer if the polite side has not answered it yet, the polite side's
   open offer otherwise.
   */
  lemma DeliveriesSettle(s: System, steps: seq<Step>, deliveries: seq<Step>)
    requires Initial(s) && CanRun(s, steps) && SafeRun(s, steps)
    requires CanRun(After(s, steps), deliveries) && OnlyDeliveries(deliveries)
    ensures |deliveries| <= InFlight(After(s, steps))
    ensures var t := After(s, steps); var u := After(t, deliveries);
            (forall p :: !Enabled(u, Deliver(p))) ==>
              u.polite.sig.Stable? && u.impolite.sig.Stable? && u.polite.agreed == u.impolite.agreed == Outcome(t)
  {
    hide CanRun, SafeRun, Next, Numbered;
    InitialInv(s);
    RunKeepsInv(s, steps);
    var t := After(s, steps);
    DeliveriesDrain(t, deliveries);
    var u := After(t, deliveries);
    if forall p :: !Enabled(u, Deliver(p)) {
      assert !Enabled(u, Deliver(true)) && !Enabled(u, Deliver(false));
    }
  }

  // ----- which offers on demand break the protocol

  /** Deliveries alone can lead to a message that does not fit. */
  ghost predicate CanMisfire(t: System) {
    exists steps, p :: OnlyDeliveries(steps) && CanRun(t, steps) && Misfit(After(t, steps), p)
  }

  lemma MisfireNow(t: System, p: bool)
    requires Misfit(t, p)
    ensures CanMisfire(t)
  {
    assert OnlyDeliveries([]) && CanRun(t, []) && After(t, []) == t;
  }

  lemma MisfireLater(t: System, q: bool)
    requires Enabled(t, Deliver(q)) && CanMisfire(Next(t, Deliver(q)))
    ensures CanMisfire(t)
  {
    hide Misfit, Next;
    var u := Next(t, Deliver(q));
    var steps, p :| OnlyDeliveries(steps) && CanRun(u, steps) && Misfit(After(u, steps), p);
    var longer := [Deliver(q)] + steps;
    assert longer[0] == Deliver(q) && longer[1..] == steps;
    assert CanRun(t, longer) && After(t, longer) == After(u, steps);
  }

  /** The impolite side will get an answer to an offer that it no longer holds. */
  predicate WrongAnswer(t: System, k: nat) {
    && t.impolite.sig.HaveLocalOffer? && k < |t.toImpolite|
    && t.toImpolite[k].Answer? && t.toImpolite[k].id != t.impolite.sig.local
    && forall j :: 0 <= j < k ==> t.toImpolite[j].Offer?
  }

  lemma {:induction false} WrongAnswerMisfires(t: System, k: nat)
    requires WrongAnswer(t, k)
    ensures CanMisfire(t)
    decreases k
  {
    hide CanMisfire;
    if k == 0 {
      MisfireNow(t, false);
    } else {
      var u := Next(t, Deliver(false));
      assert u.toImpolite[k - 1] == t.toImpolite[k];
      WrongAnswerMisfires(u, k - 1);
      MisfireLater(t, false);
    }
  }

  /** A stable impolite side is about to answer an offer that the polite side no longer holds. */
  lemma OldOfferMisfires(t: System)
    requires t.impolite.sig.Stable? && t.toImpolite != [] && t.toImpolite[0].Offer? && t.toPolite == []
    requires t.polite.sig.HaveLocalOffer? && t.toImpolite[0].id != t.polite.sig.local
    ensures CanMisfire(t)
  {
    hide CanMisfire;
    MisfireNow(Next(t, Deliver(false)), true);
    MisfireLater(t, false);
  }

  /** The same once the impolite side has got the answer it waits for. */
  lemma {:induction false} OldOfferBehindAnswer(t: System, k: nat)
    requires t.impolite.sig.HaveLocalOffer? && t.toPolite == [] && t.polite.sig.HaveLocalOffer? && k + 1 < |t.toImpolite|
    requires forall j :: 0 <= j < k ==> t.toImpolite[j].Offer?
    requires t.toImpolite[k] == Answer(t.impolite.sig.local)
    requires t.toImpolite[k + 1].Offer? && t.toImpolite[k + 1].id != t.polite.sig.local
    ensures CanMisfire(t)
    decreases k
  {
    hide CanMisfire;
    var u := Next(t, Deliver(false));
    assert u.toImpolite[0] == t.toImpolite[1];
    if k == 0 {
      OldOfferMisfires(u);
    } else {
      assert u.toImpolite[k - 1] == t.toImpolite[k] && u.toImpolite[k] == t.toImpolite[k + 1];
      OldOfferBehindAnswer(u, k - 1);
    }
    MisfireLater(t, false);
  }

  /** The polite side is about to answer an offer that the impolite side no longer holds. */
  lemma OldImpoliteOfferMisfires(t: System)
    requires t.impolite.sig.HaveLocalOffer? && AllOffers(t.toImpolite) && !t.polite.sig.HaveRemoteOffer?
    requires t.toPolite != [] && t.toPolite[0].Offer? && t.toPolite[0].id != t.impolite.sig.local
    ensures CanMisfire(t)
  {
    hide CanMisfire;
    var u := Next(t, Deliver(true));
    assert u.toImpolite == t.toImpolite + [Answer(t.toPolite[0].id)];
    WrongAnswerMisfires(u, |t.toImpolite|);
    MisfireLater(t, true);
  }

  lemma PoliteDemandBreaks(s: System)
    requires Inv(s) && !Harmless(s, true)
    ensures CanMisfire(Next(s, Demand(true)))
  {
    hide CanMisfire;
    var t := Next(s, Demand(true));
    assert s.polite.sig.HaveLocalOffer? && s.polite.sig.local.serial < s.polite.next;
    if Answered(s) {
      OldOfferBehindAnswer(t, AnswerPlace(s));
    } else if s.toPolite != [] {
      MisfireNow(t, true);
    } else {
      OldOfferMisfires(t);
    }
  }

  lemma ImpoliteDemandBreaks(s: System)
    requires Inv(s) && !Harmless(s, false)
    ensures CanMisfire(Next(s, Demand(false)))
  {
    hide CanMisfire;
    var t := Next(s, Demand(false));
    assert s.impolite.sig.HaveLocalOffer? && s.impolite.sig.local.serial < s.impolite.next;
    if Answered(s) {
      WrongAnswerMisfires(t, AnswerPlace(s));
    } else if s.toPolite[0].Offer? {
      OldImpoliteOfferMisfires(t);
    } else {
      OldImpoliteOfferMisfires(Next(t, Deliver(true)));
      MisfireLater(t, true);
    }
  }

  /**
   In every reachable state, an offer on demand can be followed by deliveries of which one does not
   fit if and only if it is not harmless: its maker is not stable, and it is not the polite side
   while the impolite side's open offer is the only message on its way to it. A harmless one
   changes nothing about the guarantees, whatever steps follow.
   */
  lemma DemandBreaksIff(s: System, steps: seq<Step>, byPolite: bool)
    requires Initial(s) && CanRun(s, steps) && SafeRun(s, steps)
    ensures CanMisfire(Next(After(s, steps), Demand(byPolite))) <==> !Harmless(After(s, steps), byPolite)
  {
    hide Inv, Next, CanRun, SafeRun, Harmless, CanMisfire;
    InitialInv(s);
    RunKeepsInv(s, steps);
    var t := After(s, steps);
    if Harmless(t, byPolite) {
      DemandKeepsInv(t, byPolite);
      InvNeverMisfires(Next(t, Demand(byPolite)));
    } else if byPolite {
      PoliteDemandBreaks(t);
    } else {
      ImpoliteDemandBreaks(t);
    }
  }

  lemma InvNeverMisfires(t: System)
    requires Inv(t)
    ensures !CanMisfire(t)
  {
    hide Inv, Next, Misfit, CanRun, SafeRun, OnlyDeliveries;
    forall steps, p | OnlyDeliveries(steps) && CanRun(t, steps) ensures !Misfit(After(t, steps), p) {
      DeliveriesAreSafe(t, steps);
      RunKeepsInv(t, steps);
      if Enabled(After(t, steps), Deliver(p)) {
        InvFits(After(t, steps), p);
      } else {
        NothingToMisfit(After(t, steps), p);
      }
    }
  }

  lemma NothingToMisfit(t: System, p: bool)
    requires !Enabled(t, Deliver(p))
    ensures !Misfit(t, p)
  {
  }

  /**
   A run that breaks it. The impolite side offers twice without waiting; the polite
   side answers the first; that answer then meets the second offer and settles it, so the two
   sides call different offers agreed and the next answer is refused.
   */
  lemma ManualOfferBreaks()
    ensures var i0 := Connection(Stable, None, 0);
            var i1 := OnManual(i0, "b");
            var i2 := OnManual(i1.c, "b");
            && |i1.sent| == |i2.sent| == 1 && i1.sent[0] != i2.sent[0]
            && var p1 := React(Connection(Stable, None, 0), "a", true, i1.sent[0]);
            && p1.sent == [Answer(i1.sent[0].id)]
            && i2.c.sig == HaveLocalOffer(i2.sent[0].id) && i2.c.sig.local != p1.sent[0].id
            && var p2 := React(p1.c, "a", true, i2.sent[0]);
            var i3 := React(i2.c, "b", false, p1.sent[0]);
            && |p2.sent| == 1
            && i3.c.agreed != p2.c.agreed
            && React(i3.c, "b", false, p2.sent[0]).failed
  {
  }
}

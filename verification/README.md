# Matching, timetable and call protocols of a speed-meeting event

A Dafny model of the server and client logic that runs an event in which participants meet in
pairs, round after round, with proofs about whole schedules and whole runs.

- Matching: the engine that builds R rounds without repeated pairs (greedy pass, byes, bounded
  repair search, local improvement), the independent checker of its results, and storing them.
  Files `Graph`, `Ranking`, `Recovery`, `Greedy`, `RoundHistory`, `RoundBuilder`, `HalfBound`,
  `Improvement`, `Publication`, `Matching`, `Scoring`, `Sorting`, `Validation`, `ScheduleMeaning`,
  `ReportMeaning`, `RoundRobin`, `StuckInput`, `StuckExample`, `SmallInputs`, `Persistence`,
  `StoredSchedule`.
- Timetable: rounds as rows in time, the phase of a moment, operator actions that shift the rows,
  and the lifecycle messages sent along the way. Files `Timetable`, `Operator`, `Dispatch`.
- Negotiation of a call: two peers, two first-in-first-out channels, every interleaving. Files
  `Signaling`, `Negotiation`; the connection follows section 3.2 of RFC 8829.
- Media failover between a direct and a relay adapter. `Failover` has the state machine and its
  theorems, `FailoverEffects` what each operation and event comes to; `FailoverTransport` has the objects, each method equal to its function.
- Small shared-state protocols: leader lease (`Lease`), ownership of a participant's connection
  (`Connections`), message rate limit (`RateLimit`), clock synchronisation (`ClockSync`).

Methods that update state in place are proved against functions of the old state, and the theorems
over runs are lemmas about those functions.

Conventions. Times of rounds, leases and rate limits are whole microseconds, clock samples are real
milliseconds, scores and weights are reals. How a string is read as a UUID is a parameter. Clocks
are arguments. A published message is an element of a transcript.

Where the repository's own words and its code differ, the code is modelled:

- `docs/matching.md:130-133` calls N <= R impossible; the code accepts R = N for odd N, and rightly
  so (`RoundRobin.UpfrontBoundIsExact`).
- The uniqueness test compares id strings, not UUIDs (`SmallInputs.SameUuidRejected`).
- The description of an acquired lease says that the caller now holds it; a lease that expires at
  this very moment is acquired although it has no current leader any more
  (`Lease.AcquiredMeansLeaderIff`), and a slow caller can be granted a lease that is over
  (`Lease.GrantIsLiveIff`). A renewal that was begun in a lost tenure can cut the regained one short
  (`Lease.RenewalFromEarlierTenure`).
- An extension during a pause silently ends the pause (`Operator.ExtendCancelsThePause`), and a
  resume after the old end of the round can bring messages out of order
  (`Dispatch.ResumeBreaksOrderIff` says exactly when).

## Model

| member | source | states |
|---|---|---|
| Graph.DenseHasPerfect | apps/events/matching.py:193-241 | 2m people who may each meet at least m of the others can always be paired all at once (the minimum-degree condition behind the feasibility of early rounds) |
| Graph.Grow | apps/events/matching.py:193-241 | under that condition every partial round can be made one pair longer, by a free pair or by rerouting an existing one |
| Graph.FewPartnersHasPerfect | apps/events/matching.py:193-241 | if nobody in the working set of 2m has m or more past partners, a round that repeats nobody exists |
| Graph.RecordsKeepsMutual | apps/events/matching.py:190-191 | recording a round keeps the forbidden sets symmetric and irreflexive |
| Graph.RecordsCard | apps/events/matching.py:190-191 | a round adds at most one forbidden partner to anybody |
| Recovery.UnmarkUndoesMark | apps/events/matching.py:223-231 | taking a pair back restores the forbidden sets exactly |
| Recovery.SomeBranchLives | apps/events/matching.py:211-227 | if a round exists then, whoever is placed next, some allowed partner leaves a solvable rest: the branching loses no solution |
| Recovery.Extend | apps/events/matching.py:223-228 | a pair put in front of a solution of the rest is a solution of the whole, best score first among the branches that are not dead |
| Recovery.FrameStep | apps/events/matching.py:204-208 | one more branch keeps the number of calls within the budget plus the quarter-square bound |
| Recovery.SmallTrees | apps/events/matching.py:201-208 | up to ten people in a round the full search tree is smaller than the budget |
| RoundBuilding.RoundBuilder.Search | apps/events/matching.py:204-232 | true: the appended pairs are a perfect matching of the working set that avoids the forbidden sets, the best-first one, and the forbidden sets record exactly it; false: forbidden sets and chosen list are as before, and unless the budget ran out no round exists; never more than 10,000 + (n/2)^2 calls, nor more than the full search tree over n people has |
| RoundBuilding.RoundBuilder.TryAll | apps/events/matching.py:223-232 | the candidates of one frame: all dead within the budget means that the frame has no solution |
| RoundBuilding.RoundBuilder.TryPartner | apps/events/matching.py:224-231 | one branch, with the exact undo when it fails |
| RoundBuilding.RoundBuilder.PickHardest | apps/events/matching.py:211-217 | the person with the fewest possible partners left, smallest rank among equals |
| RoundBuilding.RoundBuilder.GreedyRound | apps/events/matching.py:155-191 | every pair joins a true minimum-degree person with that person's best allowed partner, although degrees are only decremented; the pass covers the working set or strands somebody with nobody left |
| RoundBuilding.RoundBuilder.BestPartner | apps/events/matching.py:170-174 | the first allowed remaining partner in score order, or proof that there is none |
| Greedy.Decrement | apps/events/matching.py:184-188 | decremented counts equal a recount of allowed remaining partners |
| Greedy.Advance | apps/events/matching.py:180-191 | a greedy pick keeps the partial round a matching, greedy so far, and recorded in the forbidden sets |
| Ranking.MinByCount | apps/events/matching.py:165-168 | the minimum by (count, rank) of a non-empty set |
| RoundBuilding.RoundBuilder.BuildRound | apps/events/matching.py:155-243 | a finished round is a perfect matching with no past pair, greedy or repaired after greedy really got stuck; failing means an exhausted budget or that no such round exists |
| RoundBuilding.RoundBuilder.PickBye | apps/events/matching.py:135-149 | of those who never sat out, the one with the most people left to meet and the largest rank; none exactly if everybody has |
| RoundBuilding.RoundBuilder.BuildRounds | apps/events/matching.py:134-244 | the whole history is rounds of the working sets without repetitions, each following from the one before by the bye rule and greedy or repair; a dead end means that the budget ran out or that these very rounds, with the bye chosen next, leave no further round, and in the first half of the possible rounds only the budget |
| RoundHistory.AppendRound | apps/events/matching.py:190-191 | one more round keeps the invariant of the whole history: forbidden sets equal the pairs so far, nothing repeats |
| RoundHistory.EarlyRoundExists | apps/events/matching.py:193-241 | in any history of fewer than floor(N/2) rounds another round exists |
| RoundHistory.AllSatOut | apps/events/matching.py:135-141 | everybody having sat out takes at least N rounds, so under the up-front bound that error cannot occur |
| HalfBound.HalfIsTheLimit | apps/events/matching.py:193-241 | for 2m participants with m odd, m rounds can be played so that no further one exists: the half that early rounds are guaranteed for is the best possible for these numbers |
| StuckInput.GreedySucceeds | apps/events/matching.py:164-191 | on scores that favour the other of two groups of three the greedy pass of the first three rounds never strands anybody |
| StuckInput.ThreeRoundsAtMost | apps/events/matching.py:134-244 | on such scores every history the engine builds has at most three rounds, and three leave no fourth |
| StuckExample.SixScores | apps/events/matching.py:105-113 | the tags of the example give exactly such scores |
| StuckExample.SixParticipantsGetStuck | apps/events/matching.py:236-240 | any answer of the generator to four or five rounds of these six participants is a failure in round 4 after at most 36 calls, although the input passes all checks |
| SmallInputs.SmallInputsFailForAReason | apps/events/matching.py:201-241 | up to eleven participants a failure is never for the budget: the engine's own rounds leave no further one, and more than half as many rounds were asked for |
| SmallInputs.SmallInputsSucceed | apps/events/matching.py:193-241 | up to eleven participants half as many rounds always succeed |
| SmallInputs.UpToFourAlwaysSucceed | apps/events/matching.py:66-370 | up to four participants every number of rounds within the bound succeeds |
| Improvement.FindSwap | apps/events/matching.py:258-339 | the first place in scan order at which two pairs can be rearranged into unused pairs so that the total of the round rises by more than the tolerance, the pair of first members first; none if no such rearrangement of the round exists |
| Improvement.SwappedTotal | apps/events/matching.py:262-281 | the comparison of four scores accepts a swap if and only if the total of the whole round rises by more than 1e-9 |
| Improvement.FirstGoodIsFirstBetter | apps/events/matching.py:258-339 | the swap that the scan picks gives the first better rearrangement of the round, told without the scan's own test |
| Improvement.OptimalIffNoneBetter | apps/events/matching.py:258-339 | the scan finds nothing if and only if no rearrangement of two pairs into unused ones raises the total by more than the tolerance |
| Improvement.EscapeNeverApplies | apps/events/matching.py:273-278 | the escape for pairs of the current round never decides: a swap is legal exactly if both new pairs are unused everywhere |
| Improvement.SwapInStep | apps/events/matching.py:282-299 | a swap keeps the round's list, the round's set and the global pair set in step |
| Improvement.SwappedEnds | apps/events/matching.py:269-271 | a swap pairs the same people |
| Improvement.ImproveRound | apps/events/matching.py:252-346 | still a perfect matching of the same people that takes no pair of another round, reached by first better rearrangements only, ten of them or until none is left; so no rearrangement that raises the total remains after fewer than ten |
| Improvement.ImproveAll | apps/events/matching.py:246-346 | all rounds stay rounds of their working sets, pairwise disjoint, none worse than before; each is changed by first better rearrangements only, ten of them or until none that raises the total was left in it at its turn |
| Publication.Publish | apps/events/matching.py:348-370 | rounds on ranks are written out under the participants' ids, pairs sorted, each with its score |
| Publication.PublishedTold | apps/events/matching.py:348-370 | a published round shows its number, who sits out, and every pair with its score, the pairs in the order of the ranks of their first members |
| Publication.PublishedIsSound | apps/events/matching.py:348-370 | disjoint rounds on ranks become a schedule in which everybody is placed once per round and nobody meets twice |
| Matching.BuildScores | apps/events/matching.py:105-113 | the score matrix is symmetric with every pair scored once |
| Matching.RankPartners | apps/events/matching.py:115-125 | everybody else in order of (-score, rank) |
| Matching.GenerateSchedule | apps/events/matching.py:66-370 | invalid input is refused for the first reason that applies; a schedule that is returned is sound, scored and in UUID order, and is the published improvement of rounds built by the engine's rules; a failure means that the budget ran out or that the engine's own rounds on these scores leave no further one, and for R at most floor(N/2) only the budget; its error names somebody whom the greedy pass strands after those rounds |
| Matching.GeneratedPasses | apps/events/matching.py:379-545 | a generated schedule passes the checker if and only if no pair has two spellings of one UUID; ids of different UUIDs always suffice |
| Matching.FullSchedulePassesIff | apps/events/matching.py:379-545 | with as many rounds as the bound allows, the condition is on the input alone: the checker is satisfied if and only if all ids stand for different UUIDs |
| SmallInputs.FullAnswerPassesIff | apps/events/matching.py:66-370 | the same for any schedule that the generator returns for that many rounds |
| SmallInputs.SameUuidRejected | apps/events/matching.py:72-73 | two spellings of one UUID are accepted, being different strings, a schedule is always returned for the two, and the checker always rejects it |
| Matching.GenerateAndCheck | apps/events/scheduling.py:181-197 | generating, validating and locking: a schedule is locked exactly if it was generated and the list of violations is empty, a locked schedule is valid, and with different UUIDs the validation never blocks |
| Validation.Validate | apps/events/matching.py:379-545 | the list of violations in the order the checker makes them, computed with its dictionaries and sets |
| Validation.ReportIsEmpty | apps/events/matching.py:386-545 | the list is empty if and only if every rule holds |
| ReportMeaning.ReportTells | apps/events/matching.py:386-545 | a violation is in the list if and only if the schedule has it, told kind by kind from rounds and pairs: who is unknown, paired with themselves, out of order, twice in a round, out twice and how often, which two people meet again and in which round they first met |
| ScheduleMeaning.CleanMeansValid | apps/events/matching.py:386-545 | for readable ids the rules hold if and only if the schedule is valid: numbers 1..R once each, everybody exactly once per round as paired or bye, no pair in two rounds, nobody out twice, ordered pairs and scores within 0..1 |
| ScheduleMeaning.CleanMeans | apps/events/matching.py:386-545 | for any ids the rules hold if and only if the schedule is valid except that order and repetition are judged among readable ids only |
| ScheduleMeaning.EverybodyMeets | apps/events/matching.py:98-103 | in a sound schedule with as many rounds as possible everybody meets everybody |
| ScheduleMeaning.CountedMeansExactlyOnce | apps/events/matching.py:404-405 | the counting argument: the right number of disjoint pairs plus the bye reach everybody, though nothing checks that directly |
| ScheduleMeaning.NoClashMeans | apps/events/matching.py:514-526 | remembering the last round of each pair finds every repetition between any two rounds |
| ScheduleMeaning.RoundBound | apps/events/matching.py:98-103 | no valid schedule has more than N-1 rounds (N even) or N rounds (N odd) |
| RoundRobin.RoundsAreGood | apps/events/matching.py:98-103 | the circle method: up to N-1 or N rounds of everybody, or all but one, in which no two meet twice |
| RoundRobin.PossibleIff | apps/events/matching.py:98-103 | for at least two people of different UUIDs a valid schedule of R rounds exists if and only if R lies between 0 and the bound |
| RoundRobin.UpfrontBoundIsExact | apps/events/matching.py:98-103 | an input of distinct readable ids passes the up-front checks if and only if a valid schedule for it exists |
| ScheduleMeaning.UnreadableRepeatsPass | apps/events/matching.py:514-517 | ids that are no UUIDs escape the repeat check: a pair can meet twice without a violation |
| Scoring.ComputeMatchScore | apps/events/scoring.py:77-83 | the weighted overlap of two tag sets lies within 0..1 |
| Scoring.ScoreIsTheShare | apps/events/scoring.py:77-83 | the score times the number of all tags of the two is the weight times the number of common ones, or that number itself where it would be more |
| Scoring.ScoreIsSymmetric | apps/events/scoring.py:77-83 | both participants get the same score |
| Scoring.ScoreIsZero | apps/events/scoring.py:77-83 | zero exactly if no tag is shared or the weight is zero |
| Scoring.SameTagsScoreBest | apps/events/scoring.py:77-83 | nobody scores better than somebody with the same tags |
| Persistence.EventStore.PersistSchedule | apps/events/scheduling.py:86-126 | all rounds in closed form and all pairs smaller id first replace what was stored, or nothing changes: exactly if an id or a number cannot be stored or a database constraint on rounds, pairs or rooms is broken |
| Persistence.RowsAreThePairs | apps/events/scheduling.py:107-124 | for a valid schedule every stored pair is a pair of the schedule in its order: the exchange of the two ids never happens |
| Persistence.ValidIsAdmissible | apps/events/scheduling.py:105-126 | the pairs of a valid schedule have ordered ids, each couple once per event, nobody twice in a round on either side |
| Persistence.ValidIsStorableIff | apps/events/scheduling.py:86-126 | a valid schedule of participants with different UUIDs is stored if and only if the room hash collides neither within the event nor with rooms of other events |
| StoredSchedule.StorableIff | apps/events/scheduling.py:86-126 | any schedule whatever is stored if and only if its rounds have different numbers and some length, its ids can be read, and no two of its pairs are the same two people, share the lower or the higher one in a round, or get one room |
| Persistence.ReadBackIsTheTimetable | apps/events/scheduling.py:86-103 | in whatever order a valid schedule lists its rounds, reading the stored rounds by number gives the timetable in closed form |
| Persistence.SelectPairingRecipients | apps/events/orchestrator.py:137-178 | two recipients per stored pair of the round, the first id being the offerer |
| Persistence.NobodyToldTwice | apps/events/orchestrator.py:137-178 | no participant gets two pairing messages for a round |
| Persistence.ToldIffPaired | apps/events/orchestrator.py:137-178 | exactly the participants of the stored pairs of the round are told |
| Persistence.PartnersAgree | apps/events/orchestrator.py:137-178 | whoever is told of a partner has the partner told of them, in the same room, exactly one of them offering |
| Timetable.CalculateFullSchedule | apps/events/scheduler.py:28-61 | the accumulating loop equals the closed form round by round and ends at the end of the event |
| Timetable.ClosedFormIsOrdered | apps/events/scheduling.py:86-90 | the closed form is ordered and contiguously numbered, and its last round ends when the event does |
| Timetable.CompletedFromEventEnd | apps/events/auth.py:38-43 | a fresh timetable reads completed exactly from the event end that join tokens expire by |
| Timetable.RoundTable.PersistSchedule | apps/events/scheduler.py:76-102 | calculated rounds overwrite or join the stored ones, all others stay |
| Timetable.StaleRoundsStay | apps/events/scheduler.py:76-102 | the stored table is exactly the new one if and only if no stored round had a number outside 1..R |
| Timetable.GetCurrentPhase | apps/events/scheduler.py:104-164 | the first-match scan on any table, and its agreement with the declarative partition of time on ordered, contiguously numbered tables for every lead |
| Timetable.MatchIsPhaseOutsideGaps | apps/events/scheduler.py:104-164 | scan and partition agree at every moment that is not in a numbering gap |
| Timetable.FallbackExactly | apps/events/scheduler.py:160-164 | the last return is taken if and only if the moment is in a break whose next number is missing |
| Timetable.RankIsMonotone | apps/events/scheduler.py:104-164 | time never moves (round, phase) backwards |
| Timetable.RemainingIsExact | apps/events/scheduler.py:104-164 | until the reported remaining time has passed phase and round stay the same, and then they move on |
| Operator.OperatorService.PauseRound | apps/events/operator.py:45-80 | succeeds if and only if the leader asks while a round runs and the last log entry is no pause, and refused for the first of these that fails; the log grows by the pause of the running round and nothing else changes |
| Operator.OperatorService.ResumeRound | apps/events/operator.py:83-138 | succeeds if and only if the leader asks and the last log entry is a pause; the paused round ends later by the length of the pause but at least a second, later rounds move by the same, earlier ones stay |
| Operator.OperatorService.ExtendRound | apps/events/operator.py:141-185 | succeeds if and only if the leader asks for a positive time while a round runs; that round ends later by the extension and later rounds move by the same; refusals change nothing |
| Operator.PausesNeverFollowEachOther | apps/events/operator.py:57-59 | in no run from an empty log do two pauses stand next to each other |
| Operator.EveryRunKeepsTheTable | apps/events/operator.py:44-185 | any run of actions keeps the table ordered and contiguous, keeps the first start and all gaps, and lengthens each round, and the whole event, by exactly what was logged |
| Operator.NothingMovesBack | apps/events/operator.py:44-185 | no action makes a round start or end earlier |
| Operator.ResumeRestoresTheRound | apps/events/operator.py:83-138 | after a resume the paused round is in progress with its remaining time at the pause plus what the pause lacked to a second |
| Operator.ExtendCancelsThePause | apps/events/operator.py:88-90 | extending during a pause ends it: the resume is then refused and a new pause is possible |
| Dispatch.OrchestratorRealtime.SendOnce | apps/events/orchestrator.py:266-277 | a message is sent and marked once; one that cannot be built raises and stays unmarked |
| Dispatch.OrchestratorRealtime.DispatchTick | apps/events/orchestrator.py:397-463 | told from the rows: a leader's tick that does not raise leaves every message that falls due at that moment sent, sends nothing that does not, and one that raises met a due message that cannot be built; others send nothing |
| Dispatch.DueIff | apps/events/orchestrator.py:405-451 | a pairing is due from the lead before a round to its end once earlier rounds are over, a start during the round, a warning during its last seconds, an end during the break after it or after the last round, the end of the event from the last end on; and nothing else |
| Dispatch.TickSendsExactly | apps/events/orchestrator.py:397-463 | after a tick exactly those messages are sent that were before, or that fall due and have no unbuildable one due before them |
| Dispatch.EmitKeepsOrder | apps/events/orchestrator.py:272-277 | sending what is due keeps the order if each due message was sent or is later than all that was sent |
| Dispatch.MessagesStayInOrder | apps/events/orchestrator.py:397-463 | over any run of ticks, extensions, pauses and resumes at non-decreasing times in which no resume leaves a skipped message behind, the messages are strictly increasing by round and stage, the end of the event last |
| Dispatch.AtMostOnce | apps/events/orchestrator.py:266-277 | no run whatever sends a message twice |
| Dispatch.BeforeOldEndIsTimely | apps/events/operator.py:83-138 | a resume before the old end of the paused round is always timely |
| Dispatch.ResumeBreaksOrderIff | apps/events/orchestrator.py:397-463 | a resume can be followed by a tick that breaks the order if and only if a message from the resumed round on was skipped, which the sent messages and the table tell; otherwise every timely continuation keeps the order |
| Dispatch.LateResumeExample | apps/events/orchestrator.py:397-463 | a concrete run that breaks it: the end of round 1 was announced, the round is resumed, and its warning is sent after its end |
| Dispatch.EmitKeepsPrefix | apps/events/orchestrator.py:397-463 | a due message that was sent has the ones due before it sent too, also when building one fails |
| Signaling.ExactlyOnePolite | apps/events/static/events/js/perfect_negotiator.js:203 | of two different ids exactly one side is polite |
| Signaling.PoliteIff | apps/events/static/events/js/perfect_negotiator.js:203 | the polite side is the one whose id is smaller at the first place where the two differ, or ends there |
| Signaling.PerfectNegotiator.constructor | apps/events/static/events/js/perfect_negotiator.js:202-206 | the initial role and flags |
| Signaling.PerfectNegotiator.OnNegotiationNeeded | apps/events/static/events/js/perfect_negotiator.js:248-266 | a local offer is set and sent from the stable state |
| Signaling.PerfectNegotiator.CreateManualOffer | apps/events/static/events/js/perfect_negotiator.js:624-645 | an offer on demand, also while an earlier one is open |
| Signaling.PerfectNegotiator.HandleRemoteOffer | apps/events/static/events/js/perfect_negotiator.js:763-792 | a colliding offer is ignored by the impolite side, makes the polite side roll back, and is answered otherwise |
| Signaling.PerfectNegotiator.HandleRemoteAnswer | apps/events/static/events/js/perfect_negotiator.js:794-803 | an answer is accepted only for an open local offer and reported as a failure otherwise |
| Signaling.PerfectNegotiator.HandleSignalingMessage | apps/events/static/events/js/perfect_negotiator.js:746-761 | offers, answers, candidates and unknown messages; messages of another room change nothing |
| Signaling.PerfectNegotiator.SwitchPartner | apps/events/static/events/js/perfect_negotiator.js:696-726 | a new connection, partner and role; if the browser refuses, no connection is left and the failure is reported |
| Negotiation.StepKeepsInv | apps/events/static/events/js/perfect_negotiator.js:248-266 | every interleaving of offers, harmless offers on demand and deliveries stays within the four shapes a call can have |
| Negotiation.EveryDeliveryFits | apps/events/static/events/js/perfect_negotiator.js:763-804 | in every reachable state no delivery fails, an answer meets the very offer it answers, and an offer its maker rolled back is ignored without effect |
| Negotiation.DrainedMeansAgreed | apps/events/static/events/js/perfect_negotiator.js:763-804 | with both channels empty both sides are stable on the same agreed offer |
| Negotiation.DeliveryDropsWeight | apps/events/static/events/js/perfect_negotiator.js:763-804 | every delivery lowers the weight of what is under way |
| Negotiation.DeliveriesSettle | apps/events/static/events/js/perfect_negotiator.js:763-804 | deliveries in any order end after at most that many steps, and always in the one agreement that was already settled, the impolite side's offer winning a collision |
| Negotiation.DemandFromStable | apps/events/static/events/js/perfect_negotiator.js:624-645 | from the stable state an offer on demand is the same as one made by the event |
| Negotiation.DemandBreaksIff | apps/events/static/events/js/perfect_negotiator.js:624-645 | in every reachable state an offer on demand can be followed by deliveries of which one does not fit if and only if its maker is not stable and it is not the polite side while the impolite side's open offer is all that is on its way to it |
| Negotiation.ManualOfferBreaks | apps/events/static/events/js/perfect_negotiator.js:624-645 | a concrete run: two offers on demand lead to sides that disagree and to a refused answer |
| Failover.ActivationShape | apps/protocol/media_transport.py:646-668 | activating the fallback closes the old adapter's peer and no other, and a relay goes on with the same room, partner and openness without new media |
| Failover.StepKeepsInv | apps/protocol/media_transport.py:448-725 | every operation, event and timer keeps the accounting of peers, bindings and stamps |
| Failover.AtMostOneLivePeer | apps/protocol/media_transport.py:330-348 | over every run each adapter's created peers are its current one plus its abandoned ones, each once, and at most one adapter has a live peer |
| Failover.OneForwarderPerEvent | apps/protocol/media_transport.py:613-644 | until the session is left exactly one forwarder per event is registered, on the active adapter only |
| Failover.ActivationsAndAcquisitions | apps/protocol/media_transport.py:646-725 | activations and the times the fallback was given up alternate; media is acquired at most once more than it was left |
| Failover.StaleTimerDoesNothing | apps/protocol/media_transport.py:530-584 | a timer armed before a preconnect, open, switch, leave, connection, failure or activation does nothing, whatever comes between |
| Failover.CurrentTimerActs | apps/protocol/media_transport.py:573-584 | a timer that is not stale always acts: the checks behind the generation never stop it |
| Failover.FallbackOnlyInSelectedRoom | apps/protocol/media_transport.py:646-700 | with named partners the fallback is in use in the selected room only |
| Failover.ActivationRoom | apps/protocol/media_transport.py:646-668 | an activation ends in the selected room if and only if the partner has a name |
| Failover.EmptyPartnerLosesTheRoom | apps/protocol/media_transport.py:663-666 | with an empty partner id the fallback is in use in no room |
| FailoverEffects.FailureEffect | apps/protocol/media_transport.py:625-668 | after any run, a failure of the active path makes the call go over to a new relay in its room, reporting a degraded call and no failure, exactly if it is in the fallback room and not on the fallback; otherwise it reports the failure and changes nothing else |
| FailoverEffects.EventEffect | apps/protocol/media_transport.py:625-638 | after any run every other event of the active path is reported, and a connection makes timers stale |
| FailoverEffects.OtherEventEffect | apps/protocol/media_transport.py:613-638 | after any run an event of another adapter, or after leaving, has no effect |
| FailoverEffects.TimeoutEffect | apps/protocol/media_transport.py:573-611 | after any run a current timer goes over to the relay in the fallback room and reports a degraded and failed call elsewhere |
| FailoverEffects.ForceEffect | apps/protocol/media_transport.py:646-668 | after any run forcing the fallback works exactly in the fallback room and if it is not in use |
| FailoverEffects.PreconnectEffect | apps/protocol/media_transport.py:691-700 | after any run: the relay serves the room if it is in use for it, the direct adapter otherwise; it has a new muted peer in the room, nothing is reported and no timer is armed |
| FailoverEffects.SwitchEffect | apps/protocol/media_transport.py:707-717 | after any run: the same adapters serve, with a new open peer, and a timer is armed exactly if neither the fallback nor a reported connection makes it pointless |
| FailoverEffects.OpenEffect | apps/protocol/media_transport.py:702-705 | after any run: the active adapter opens in its room, and a timer is armed under the same condition |
| FailoverEffects.LeaveEffect | apps/protocol/media_transport.py:719-725 | after any run: no peer, room, media or forwarder is left and timers are stale |
| FailoverTransport.LifecycleAdapter.RemoveListener | apps/protocol/media_transport.py:416-423 | the first registration of a handler is removed |
| FailoverTransport.FailoverMediaTransport.Unbind | apps/protocol/media_transport.py:620-623 | every bound forwarder is taken off the active adapter |
| FailoverTransport.FailoverMediaTransport.Activate | apps/protocol/media_transport.py:646-668 | the in-place activation equals its specification; refused, it changes nothing |
| FailoverTransport.FailoverMediaTransport.RestoreIfNeeded | apps/protocol/media_transport.py:670-680 | back to the primary adapter unless the room is still the selected one |
| FailoverTransport.FailoverMediaTransport.AdapterEvent | apps/protocol/media_transport.py:625-638 | an event reaches the transport once per forwarder registered on that adapter; what each comes to is stated by `FailoverEffects.FailureEffect`, `EventEffect` and `OtherEventEffect` |
| FailoverTransport.FailoverMediaTransport.OnEscalationTimeout | apps/protocol/media_transport.py:573-611 | a timer acts only with the current generation and while nothing is connected |
| FailoverTransport.FailoverMediaTransport.PreconnectRound | apps/protocol/media_transport.py:691-700 | equals its step of the specification and keeps the invariant of peers, forwarders and stamps |
| FailoverTransport.FailoverMediaTransport.OpenCall | apps/protocol/media_transport.py:702-705 | equals its step of the specification and keeps the invariant of peers, forwarders and stamps |
| FailoverTransport.FailoverMediaTransport.SwitchCall | apps/protocol/media_transport.py:707-717 | equals its step of the specification and keeps the invariant of peers, forwarders and stamps |
| FailoverTransport.FailoverMediaTransport.LeaveSession | apps/protocol/media_transport.py:719-725 | equals its step of the specification and keeps the invariant of peers, forwarders and stamps |
| FailoverTransport.FailoverMediaTransport.OnlyActiveHasPeer | apps/protocol/media_transport.py:330-348 | between any two operations only the active one of all adapter objects can have a live peer or a listener |
| Lease.LeaseTable.AcquireLease | apps/events/leadership.py:57-110 | granted exactly if nobody else holds a live lease; a refusal leaves the holder's row as it is, and a new version tells a new tenure from a lease held already |
| Lease.LeaseTable.RenewLease | apps/events/leadership.py:113-133 | a leader stays one, nobody becomes one, the tenure stays the same and nobody else is affected |
| Lease.LeaseTable.ReleaseLease | apps/events/leadership.py:136-148 | after a release the caller leads at no time, others are not touched, and anybody can acquire the released lease |
| Lease.LeaseTable.GetCurrentLeader | apps/events/leadership.py:151-164 | at most one leader, namely the one returned, and as long as there is one nobody else is granted the lease |
| Lease.AcquiredMeansLeaderIff | apps/events/leadership.py:57-110 | a successful acquisition makes the caller the leader at that moment if and only if the held lease reaches beyond it, or the new one lasts at all |
| Lease.ThreeStatementsAcquire | apps/events/leadership.py:71-110 | the three statements of a call in a row come to what an undisturbed acquisition does, whatever came before |
| Lease.GrantIsLiveIff | apps/events/leadership.py:71-110 | in any world, with readings as stale as may be, a granting statement makes the caller the leader at that moment if and only if the clock has not reached the granted or found expiry |
| Lease.HeldUntilExpiry | apps/events/leadership.py:71-110 | in every interleaving with stale clock readings, until the clock passes a granted expiry and unless the holder renews or releases, the row stays and nobody else is granted |
| Lease.TakeoverNeedsExpiry | apps/events/leadership.py:75-86 | a change of leader needs an expiry that has passed and raises the version by one |
| Lease.VersionPinsLeader | apps/events/leadership.py:75-86 | versions never decrease and each belongs to one leader |
| Lease.DeposedChangesNothing | apps/events/leadership.py:113-148 | from a world in which another id leads, and until an acquisition is granted to the deposed id, no run lets its renewals and releases change the row |
| Lease.LateRenewalIff | apps/events/leadership.py:113-133 | in any world a renewal keeps the tenure; it leaves the row alone, moves the expiry back, or ends the leadership exactly under conditions on its reading, its time to live and the row |
| Lease.RenewalFromEarlierTenure | apps/events/leadership.py:113-133 | on a lease not renewed or released since it was granted, a late renewal by its own leader with the same time to live moves the expiry back if and only if it read the clock before the lease was acquired |
| Lease.RenewalRunsOnce | apps/events/leadership.py:113-133 | once its statement was executed a renewal has no further effect in any run |
| Lease.ReleaseIff | apps/events/leadership.py:136-148 | a release changes exactly a row of its own id that is not released yet |
| Lease.GrantIsDated | apps/events/leadership.py:75-110 | a statement that writes the lease dates it by its reading and its time to live, as that condition demands |
| Lease.LostTenureExample | apps/events/leadership.py:113-133 | a concrete run: a renewal begun in a tenure that was lost ends the regained lease at once |
| Lease.StaleGrantIsOver | apps/events/leadership.py:71-110 | a concrete run: a caller that was slow after reading the clock is granted a lease that is already over |
| Connections.ParticipantConnections.CompleteHandshake | apps/events/consumers.py:299-326 | the newest socket owns the connection, the one before it is told, the absence is cleared |
| Connections.ParticipantConnections.OnLiveSocketClosed | apps/events/consumers.py:477-535 | only the owner's close gives up ownership, and it begins an absence if and only if the participant is in a pair (`Connections.AbsentIff`) |
| Connections.ParticipantConnections.InvalidateParticipantSockets | apps/events/orchestrator.py:99-114 | a re-join clears owner and absence and tells every socket |
| Connections.ParticipantConnections.WatchPartnerAbsence | apps/events/consumers.py:63-94 | a watch reports only the absence it was started for |
| Connections.OthersAreTold | apps/events/consumers.py:437-458 | over every run each live socket but the owner has a notice pending, the owner has none, and without pending notices at most the owner is live |
| Connections.GoneOnlyWhenGone | apps/events/consumers.py:63-94 | the partner is told that the participant is gone only if the owning socket closed and no handshake or re-join came since, and once per absence |
| Connections.DropIsReported | apps/events/consumers.py:502-535 | over every run: when the owner's socket of somebody in a pair closes and no new socket or re-join follows, a new generation is on record, it was reported if its watch has fired, and firing it reports it otherwise |
| Connections.AbsentIff | apps/events/consumers.py:477-535 | an absence is on record if and only if the owner's socket of somebody in a pair closed and nothing undid it since |
| Connections.UnpairedCloseRecordsNothing | apps/events/consumers.py:502-514 | the close of somebody without a pair records no absence and starts no watch |
| Connections.OwnerIsTheNewest | apps/events/consumers.py:437-458 | over every run a socket owns the connection if and only if it was the last new one, and since then it did not close and the participant did not join again |
| Connections.NoticesSettle | apps/events/consumers.py:437-458 | delivering all pending notices in any order leaves the owner as the only live socket |
| Connections.OneWatchPerProcess | apps/events/consumers.py:526-535 | over every run each process has at most one watch running |
| Connections.AbsenceIsReported | apps/events/consumers.py:502-535 | an absence on record was reported or is when its watch fires |
| Connections.LateCloseChangesNothing | apps/events/consumers.py:477-493 | a replaced socket's late close changes neither owner nor absence |
| RateLimit.RateLimiter.WithinRateLimit | apps/events/consumers.py:649-657 | a message is accepted if and only if fewer than the limit were accepted in the minute before it, although old times are dropped |
| RateLimit.AcceptKeepsWindows | apps/events/consumers.py:649-657 | no window of a minute, wherever it lies, has more accepted messages than the limit |
| ClockSync.OffsetErrorOf | apps/events/clock_sync.py:20-35 | the offset of one exchange is wrong by half the difference of the two ways, so by at most half the round trip |
| ClockSync.MedianIsRobust | apps/events/clock_sync.py:55-55 | if more than half of the values are within a bound of the target, so is the median, however wild the rest |
| ClockSync.MedianIsTheMiddle | apps/events/clock_sync.py:55-56 | the median lies midway between the value half-way up and the value half-way down, counted by how many values lie under and over them |
| ClockSync.HalfIsNotEnough | apps/events/clock_sync.py:55-55 | exactly half is not enough |
| ClockSync.EstimateIsClose | apps/events/clock_sync.py:45-72 | when most kept samples come from undisturbed exchanges the estimated server time is wrong by at most half the allowed round trip and half a millisecond |
| ClockSync.ClockSyncState.Add | apps/events/clock_sync.py:45-49 | a sample is kept exactly if its round trip is within the limit |
| ClockSync.ClockSyncState.Finalize | apps/events/clock_sync.py:51-59 | the median of the offsets, the median of the round trips and the status are published; the offset is robust against a minority of samples |

## Left out

- Signaling: awaited steps inside one handler are one step, ICE restarts and media tracks are not modelled, candidates are texts that the connection takes or not, and an offer or answer is named by maker and serial instead of its SDP; a change of room during a run of two peers is not part of `Negotiation`.
- Matching: floating-point rounding, NaN and infinite scores are not modelled; scores are reals and the tolerance is the real 1e-9.
- HalfBound.HalfIsTheLimit: for numbers of participants that are not twice an odd number it is left open how far beyond half the guarantee reaches, except up to four participants (`SmallInputs.UpToFourAlwaysSucceed`).
- Validation: violations are kinds with their data, not texts.
- Persistence: the check of the event's status and of the operator's confirmation before a recalculation, and the deletion of absent participants, are not modelled; of the database only the constraints on rounds and pairs are.
- Dispatch: message contents, expiry of the sent marks after a day and failures of the channel layer are not modelled; delivery of the end of a round is not claimed, because without a break longer than the lead that message is only due for the last round.
- Operator: the broadcast to the participants and the recalculation entry of the action log are not modelled; the last entry is the one written last, which is the one with the latest time, as the source orders them, as long as times do not decrease.
- Failover: listeners that call back into the transport, races of timer threads, the escalation log and the transient states inside one adapter call are not modelled, so the flag for a switch under way has no counterpart.
- Lease: several lease names, clock skew between hosts and the database's own locking are not modelled; one name is one row and each statement is atomic.
- Connections: failures of the cache, expiry of its keys, and interleavings inside one handler are not modelled; generations are taken to be distinct.
- ClockSync: the integer clock readings of the source are reals here.
- Not part of this model: web pages, registration, e-mail, authentication tokens and TURN credentials, message validators and schemas beyond the limit on round numbers, the event status table, reports and metrics, the browser twin of the failover transport, reconnect snapshots.

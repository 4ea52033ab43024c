/**
 Building one round after another: the hardest-first greedy pass with its running counts, the
 repair search, and the choice of who sits out when the number of participants is odd.
 */
module RoundBuilding {
  import opened Wrappers
  import opened Sets
  import opened Graph
  import opened Ranking
  import opened Recovery
  import opened Greedy
  import opened RoundHistory


  /** Why no round could be added: everybody sat out once, or the repair search gave up. */
  datatype DeadEnd =
    | AllSatOutOnce(round: int)
    | StrandedInRound(round: int, bye: Option<int>, failed: int, nodes: nat)

  /** Participants by rank, their scores, and the forbidden sets all phases share. */
  class RoundBuilder {
    const n: nat
    const scores: Scores
    const ranked: seq<seq<int>>
    var forbidden: Forbidden
    var chosen: seq<Edge>
    var recoveryNodes: nat

    constructor (n: nat, scores: Scores, ranked: seq<seq<int>>)
      requires AllRanked(ranked, n, scores)
      ensures this.n == n && this.scores == scores && this.ranked == ranked
      ensures Ready() && forall i :: 0 <= i < n ==> forbidden[i] == {}
    {
      this.n := n;
      this.scores := scores;
      this.ranked := ranked;
      forbidden := seq(n, i => {});
      chosen := [];
      recoveryNodes := 0;
    }

    ghost predicate Ready()
      reads this
    {
      |forbidden| == n && Mutual(forbidden) && AllRanked(ranked, n, scores)
    }

    /**
     Depth-first search for a round on `remaining`. True: the pairs appended to `chosen` are the
     best-first perfect matching. False: nothing changed, and unless the budget ran out there is
     no perfect matching at all.
     */
    method Search(remaining: set<int>) returns (ok: bool, ghost placed: seq<Edge>)
      requires Ready() && InRange(remaining, n)
      modifies this`forbidden, this`chosen, this`recoveryNodes
      ensures Ready()
      ensures recoveryNodes > old(recoveryNodes)
      ensures old(recoveryNodes) >= MAX_RECOVERY_NODES ==> !ok && recoveryNodes == old(recoveryNodes) + 1
      ensures old(recoveryNodes) < MAX_RECOVERY_NODES ==> WithinCalls(recoveryNodes, |remaining|)
      ensures recoveryNodes <= old(recoveryNodes) + Tree(|remaining|)
      ensures !ok ==> forbidden == old(forbidden) && chosen == old(chosen)
      ensures !ok && recoveryNodes <= MAX_RECOVERY_NODES ==> !HasPerfect(remaining, forbidden)
      ensures ok ==> recoveryNodes <= MAX_RECOVERY_NODES && chosen == old(chosen) + placed
      ensures ok ==> Solves(placed, remaining, old(forbidden), forbidden, scores)
      decreases |remaining|, 2
    {
      recoveryNodes := recoveryNodes + 1;
      if recoveryNodes > MAX_RECOVERY_NODES {
        return false, [];
      }
      if remaining == {} {
        return true, [];
      }
      var p := PickHardest(remaining);
      var candidates := ListCandidates(p, remaining);
      ok, placed := TryAll(p, candidates, remaining);
      FrameDone(recoveryNodes, |remaining|, |candidates|);
      SearchedDone(old(recoveryNodes) + 1, recoveryNodes, |remaining|, |candidates|);
    }

    /** Try the candidates of one frame in order until one of them works out. */
    method TryAll(p: int, candidates: seq<int>, remaining: set<int>) returns (ok: bool, ghost placed: seq<Edge>)
      requires Ready() && InRange(remaining, n) && Hardest(p, remaining, forbidden)
      requires CandidatesOf(candidates, p, remaining, forbidden, scores[p])
      requires 0 < recoveryNodes <= MAX_RECOVERY_NODES
      modifies this`forbidden, this`chosen, this`recoveryNodes
      ensures Ready()
      ensures recoveryNodes >= old(recoveryNodes) && WithinFrame(recoveryNodes, |remaining|, |candidates|)
      ensures Searched(old(recoveryNodes), recoveryNodes, |remaining|, |candidates|)
      ensures !ok ==> forbidden == old(forbidden) && chosen == old(chosen)
      ensures !ok && recoveryNodes <= MAX_RECOVERY_NODES ==> !HasPerfect(remaining, forbidden)
      ensures ok ==> recoveryNodes <= MAX_RECOVERY_NODES && chosen == old(chosen) + placed
      ensures ok ==> Solves(placed, remaining, old(forbidden), forbidden, scores)
      decreases |remaining|, 1
    {
      hide HasPerfect, Solves, Searched, Mutual, AllRanked, Hardest, DeadUpTo, WithinCalls, Tree;
      ghost var f := forbidden;
      HardestIsThere(p, remaining, forbidden);
      ReadyShape(n, scores, ranked);
      NothingSearched(recoveryNodes, |remaining|);
      NobodyDeadYet(p, candidates, remaining, f);
      var t := 0;
      while t < |candidates|
        invariant t <= |candidates| && Ready()
        invariant forbidden == f && chosen == old(chosen) && recoveryNodes >= old(recoveryNodes)
        invariant WithinFrame(recoveryNodes, |remaining|, t) && Searched(old(recoveryNodes), recoveryNodes, |remaining|, t)
        invariant recoveryNodes <= MAX_RECOVERY_NODES ==> DeadUpTo(p, candidates, t, remaining, f)
      {
        var q := candidates[t];
        assert q in candidates;
        ghost var before := recoveryNodes;
        ghost var rest;
        ok, rest := TryPartner(p, q, remaining);
        FrameStep(before, recoveryNodes, |remaining|, t);
        SearchedStep(old(recoveryNodes), before, recoveryNodes, |remaining|, t);
        if ok {
          DeadSoFar(p, candidates, t, remaining, f, scores);
          Extend(p, q, rest, remaining, f, forbidden, scores);
          SearchedMore(old(recoveryNodes), recoveryNodes, |remaining|, t + 1, |candidates|);
          return true, [Edge(p, q)] + rest;
        }
        if recoveryNodes <= MAX_RECOVERY_NODES {
          DeadStep(p, candidates, t, remaining, f);
        }
        t := t + 1;
      }
      if recoveryNodes <= MAX_RECOVERY_NODES {
        AllDeadMeansNone(p, candidates, remaining, f, scores[p]);
      }
      return false, [];
    }

    /** Place one pair, search the rest, and take the pair back if that fails. */
    method TryPartner(p: int, q: int, remaining: set<int>) returns (ok: bool, ghost placed: seq<Edge>)
      requires Ready() && InRange(remaining, n)
      requires p in remaining && q in remaining && Allowed(forbidden, p, q)
      modifies this`forbidden, this`chosen, this`recoveryNodes
      ensures Ready()
      ensures recoveryNodes > old(recoveryNodes) && |remaining| >= 2
      ensures old(recoveryNodes) >= MAX_RECOVERY_NODES ==> !ok && recoveryNodes == old(recoveryNodes) + 1
      ensures old(recoveryNodes) < MAX_RECOVERY_NODES ==> WithinCalls(recoveryNodes, |remaining| - 2)
      ensures recoveryNodes <= old(recoveryNodes) + Tree(|remaining| - 2)
      ensures !ok ==> forbidden == old(forbidden) && chosen == old(chosen)
      ensures !ok && recoveryNodes <= MAX_RECOVERY_NODES ==> !HasPerfect(remaining - {p, q}, forbidden)
      ensures ok ==> recoveryNodes <= MAX_RECOVERY_NODES && chosen == old(chosen) + [Edge(p, q)] + placed
      ensures ok ==> Solves(placed, remaining - {p, q}, Mark(old(forbidden), p, q), forbidden, scores)
      decreases |remaining|, 0
    {
      ghost var f := forbidden;
      MarkIsMutual(forbidden, p, q);
      RemoveTwo(remaining, p, q);
      forbidden := Mark(forbidden, p, q);
      chosen := chosen + [Edge(p, q)];
      ok, placed := Search(remaining - {p, q});
      if !ok {
        HasPerfectSameRows(remaining - {p, q}, f, forbidden);
        UnmarkUndoesMark(f, p, q);
        chosen := chosen[..|chosen| - 1];
        forbidden := Unmark(forbidden, p, q);
      }
    }

    method PickHardest(remaining: set<int>) returns (p: int)
      requires |forbidden| == n && InRange(remaining, n) && remaining != {}
      ensures Hardest(p, remaining, forbidden)
    {
      var count := map c | c in remaining :: Choices(remaining, forbidden, c);
      p := MinByCount(remaining, n, count);
    }

    /** The partners worth trying, best score first. */
    method ListCandidates(p: int, remaining: set<int>) returns (candidates: seq<int>)
      requires Ready() && InRange(remaining, n) && p in remaining
      ensures CandidatesOf(candidates, p, remaining, forbidden, scores[p])
      ensures |candidates| <= |remaining| - 1
    {
      assert RankedFor(ranked[p], n, p, scores[p]);
      candidates := AllowedInOrder(ranked[p], remaining, forbidden[p], scores[p]);
      ListedOnce(candidates, scores[p], remaining - {p});
    }

    /**
     The greedy pass. `failed` is -1 when everybody was placed; otherwise it is the person who
     was the hardest to place and had nobody left.
     */
    method GreedyRound(w: set<int>) returns (pairs: seq<Edge>, failed: int)
      requires Ready() && InRange(w, n)
      modifies this`forbidden
      ensures |forbidden| == n && Underway(w, old(forbidden), pairs, forbidden, scores)
      ensures failed == -1 ==> Ends(pairs) == w
      ensures failed != -1 ==> Stranded(failed, w - Ends(pairs), old(forbidden))
    {
      hide Choices, Partial, Records, GreedyPicks, Hardest, Favourite, Ascending;
      ghost var f := forbidden;
      StartGreedy(w, f, scores);
      pairs, failed := [], -1;
      var remaining := w;
      var count := map c | c in w :: Choices(w, forbidden, c);
      while remaining != {}
        invariant remaining == w - Ends(pairs) && |forbidden| == n
        invariant Underway(w, f, pairs, forbidden, scores)
        invariant Recounted(count, remaining, f)
        decreases |remaining|
      {
        var p := MinByCount(remaining, n, count);
        HardestByCount(p, remaining, f, count);
        var q := BestPartner(p, remaining, f);
        if q == -1 {
          return pairs, p;
        }
        Advance(w, f, pairs, forbidden, scores, p, q);
        PickFacts(remaining, f, p, q, scores);
        pairs := pairs + [Canon(p, q)];
        count := Decrement(count, remaining, p, q, forbidden, f);
        remaining := remaining - {p, q};
        forbidden := Mark(forbidden, p, q);
      }
      PartialCovers(pairs, w, f);
    }

    /** The first partner in p's ranked list who is still in the round and allowed. */
    method BestPartner(p: int, remaining: set<int>, ghost f: Forbidden) returns (q: int)
      requires |forbidden| == n == |f| && AllRanked(ranked, n, scores) && InRange(remaining, n)
      requires p in remaining && SameRows(f, forbidden, remaining)
      ensures q == -1 ==> forall c :: c in remaining ==> !Allowed(f, p, c)
      ensures q != -1 ==> Favourite(q, p, remaining, f, scores[p])
    {
      assert RankedFor(ranked[p], n, p, scores[p]);
      q := FirstAllowed(ranked[p], n, p, remaining, forbidden, scores[p]);
    }

    /**
     One round on `w`: the greedy pass, and the repair search if it strands somebody. Failing
     means that the search ran out of nodes or that no round exists.
     */
    method BuildRound(w: set<int>) returns (ok: bool, pairs: seq<Edge>, failed: int)
      requires Ready() && InRange(w, n)
      modifies this`forbidden, this`chosen, this`recoveryNodes
      ensures Ready()
      ensures ok ==> IsRound(pairs, w) && Avoids(pairs, old(forbidden)) && Records(old(forbidden), pairs, forbidden)
      ensures failed == -1 ==> ok && GreedyPicks(pairs, w, old(forbidden), scores)
      ensures failed != -1 ==> GreedyStuck(w, old(forbidden), scores) && Strands(failed, w, old(forbidden), scores)
      ensures failed != -1 && ok ==> Repaired(pairs, w, old(forbidden), scores)
      ensures failed != -1 ==> WithinCalls(recoveryNodes, |w|) && recoveryNodes <= Tree(|w|)
      ensures !ok ==> failed != -1 && forbidden == old(forbidden)
      ensures !ok ==> recoveryNodes > MAX_RECOVERY_NODES || !HasPerfect(w, old(forbidden))
    {
      hide HasPerfect, BestFirst, GreedyPicks;
      ghost var f := forbidden;
      var forbiddenBefore := forbidden;
      pairs, failed := GreedyRound(w);
      if failed == -1 {
        RecordsKeepsMutual(f, pairs, forbidden);
        return true, pairs, failed;
      }
      WitnessStuck(pairs, failed, w, f, forbidden, scores);
      forbidden := forbiddenBefore;
      recoveryNodes := 0;
      chosen := [];
      ghost var placed;
      ok, placed := Search(w);
      if ok {
        pairs := CanonAll(chosen);
        assert chosen == placed;
        NormaliseRound(chosen, w, f, forbidden, scores);
        RecordsKeepsMutual(f, pairs, forbidden);
      }
    }

    /** Of those who never sat out, the one with the most people left to meet sits out. */
    method PickBye(unmatched: seq<int>) returns (bye: Option<int>)
      requires |forbidden| == n == |unmatched|
      ensures bye.None? ==> forall i :: 0 <= i < n ==> unmatched[i] != 0
      ensures bye.Some? ==> ByeChoice(bye.value, unmatched, forbidden)
    {
      bye := None;
      for i := 0 to n
        invariant bye.None? ==> forall k :: 0 <= k < i ==> unmatched[k] != 0
        invariant bye.Some? ==> 0 <= bye.value < i && unmatched[bye.value] == 0
        invariant bye.Some? ==> forall k :: 0 <= k < i && unmatched[k] == 0 ==>
                    |forbidden[k]| > |forbidden[bye.value]| || (|forbidden[k]| == |forbidden[bye.value]| && k <= bye.value)
      {
        if unmatched[i] == 0 && (bye.None? || n - 1 - |forbidden[i]| >= n - 1 - |forbidden[bye.value]|) {
          bye := Some(i);
        }
      }
    }

    /**
     All rounds, one after another. A dead end means that the search budget ran out or that the very
     rounds built so far, with the person who was to sit out next, leave no further round; in the
     first half of the possible rounds it can only be the budget.
     */
    method BuildRounds(numRounds: int) returns (rounds: Rounds, byes: Byes, stop: Option<DeadEnd>)
      requires Ready() && forall i :: 0 <= i < n ==> forbidden[i] == {}
      modifies this`forbidden, this`chosen, this`recoveryNodes
      ensures Ready() && History(n, rounds, byes, forbidden) && AllFollow(n, rounds, byes, scores)
      ensures stop.None? ==> |rounds| == if numRounds < 0 then 0 else numRounds
      ensures stop.Some? ==> stop.value.round == |rounds| + 1 <= numRounds
      ensures stop.Some? && stop.value.AllSatOutOnce? ==> n % 2 == 1 && n <= |rounds|
      ensures stop.Some? && stop.value.StrandedInRound? ==>
                && NextBye(n, byes, stop.value.bye, forbidden) && stop.value.nodes <= Tree(2 * (n / 2))
                && (stop.value.nodes > MAX_RECOVERY_NODES || !HasPerfect(Working(n, stop.value.bye), forbidden))
      ensures stop.Some? && stop.value.StrandedInRound? && numRounds <= n / 2 ==>
                stop.value.nodes > MAX_RECOVERY_NODES
      ensures stop.Some? && stop.value.StrandedInRound? ==>
                var w := Working(n, stop.value.bye);
                InRange(w, n) && Strands(stop.value.failed, w, forbidden, scores)
    {
      hide HasPerfect, AllRounds, NoRepeats, Tracks, ByesOk, Blocked, Working, Counted, ByeChoice;
      hide IsRound, Avoids, Records, Repaired, GreedyPicks, GreedyStuck, Strands, Mutual, AllRanked, AllFollow;
      rounds, byes, stop := [], [], None;
      NoRounds(n, forbidden);
      var unmatched := seq(n, i => 0);
      NobodySatOut(unmatched, n);
      NothingFollows(n, scores);
      var round := 1;
      while round <= numRounds
        invariant round == |rounds| + 1 && (numRounds >= 1 ==> round <= numRounds + 1) && (numRounds < 1 ==> round == 1)
        invariant Ready() && History(n, rounds, byes, forbidden) && Counted(unmatched, n, byes)
        invariant AllFollow(n, rounds, byes, scores)
        decreases numRounds - round
      {
        var bye: Option<int> := None;
        if n % 2 == 1 {
          CountedSize(unmatched, n, byes);
          bye := PickBye(unmatched);
          if bye.None? {
            AllSatOut(unmatched, n, byes);
            HistorySizes(n, rounds, byes, forbidden);
            return rounds, byes, Some(AllSatOutOnce(round));
          }
        }
        ChooseBye(n, rounds, byes, forbidden, unmatched, bye);
        var w := Working(n, bye);
        ghost var f := forbidden;
        var ok, pairs, failed := BuildRound(w);
        if !ok {
          if |rounds| < n / 2 {
            EarlyRoundExists(n, rounds, byes, f, bye);
          }
          ByeFollows(n, byes, bye, f, unmatched);
          WorkingSize(n, byes, bye);
          return rounds, byes, Some(StrandedInRound(round, bye, failed, recoveryNodes));
        }
        AppendRound(n, rounds, byes, f, pairs, bye, forbidden);
        ReadyShape(n, scores, ranked);
        FollowAppend(n, rounds, byes, scores, f, unmatched, pairs, bye);
        CountBye(unmatched, n, byes, bye);
        if bye.Some? {
          unmatched := unmatched[bye.value := unmatched[bye.value] + 1];
        }
        rounds, byes := rounds + [pairs], byes + [bye];
        round := round + 1;
      }
    }
  }

  lemma NoRounds(n: nat, f: Forbidden)
    requires |f| == n && forall i :: 0 <= i < n ==> f[i] == {}
    ensures History(n, [], [], f)
  {
  }

  lemma NothingFollows(n: nat, scores: Scores)
    ensures AllFollow(n, [], [], scores)
  {
  }

  lemma ReadyShape(n: nat, scores: Scores, ranked: seq<seq<int>>)
    requires AllRanked(ranked, n, scores)
    ensures Square(n, scores)
  {
  }

  lemma NobodySatOut(unmatched: seq<int>, n: nat)
    requires |unmatched| == n && forall i :: 0 <= i < n ==> unmatched[i] == 0
    ensures Counted(unmatched, n, [])
  {
  }

  lemma CountedSize(unmatched: seq<int>, n: nat, byes: Byes)
    requires Counted(unmatched, n, byes)
    ensures |unmatched| == n
  {
  }

  lemma HistorySizes(n: nat, rounds: Rounds, byes: Byes, f: Forbidden)
    requires History(n, rounds, byes, f)
    ensures |rounds| == |byes| && |f| == n
  {
  }

  /** The chosen bye fits in: nobody sits out twice. */
  lemma ChooseBye(n: nat, rounds: Rounds, byes: Byes, f: Forbidden, unmatched: seq<int>, bye: Option<int>)
    requires History(n, rounds, byes, f) && Counted(unmatched, n, byes)
    requires if n % 2 == 1 then bye.Some? && ByeChoice(bye.value, unmatched, f) else bye.None?
    ensures ByesOk(n, byes + [bye]) && InRange(Working(n, bye), n)
    ensures bye.Some? ==> 0 <= bye.value < n == |unmatched| && unmatched[bye.value] == 0
  {
    FreshBye(n, byes, bye, unmatched);
    WorkingCard(n, bye);
  }

  lemma FreshBye(n: nat, byes: Byes, bye: Option<int>, unmatched: seq<int>)
    requires ByesOk(n, byes) && Counted(unmatched, n, byes)
    requires if n % 2 == 1 then bye.Some? && 0 <= bye.value < n && unmatched[bye.value] == 0 else bye.None?
    ensures ByesOk(n, byes + [bye]) && ByesOk(n, [bye])
  {
    if n % 2 == 1 {
      assert bye !in byes;
    }
  }

  lemma CountBye(unmatched: seq<int>, n: nat, byes: Byes, bye: Option<int>)
    requires Counted(unmatched, n, byes) && (bye.Some? ==> 0 <= bye.value < n && unmatched[bye.value] == 0)
    ensures Counted(if bye.Some? then unmatched[bye.value := unmatched[bye.value] + 1] else unmatched, n, byes + [bye])
  {
    forall i | 0 <= i < n ensures Some(i) in byes + [bye] <==> Some(i) in byes || bye == Some(i) {}
  }

  /** The person who sits out next: by the rule when n is odd, nobody when it is even. */
  ghost predicate NextBye(n: nat, byes: Byes, bye: Option<int>, f: Forbidden) {
    && |f| == n && ByesOk(n, byes + [bye])
    && if n % 2 == 1 then bye.Some? && MostFlexible(bye.value, byes, f) else bye.None?
  }

  lemma ByeFollows(n: nat, byes: Byes, bye: Option<int>, f: Forbidden, unmatched: seq<int>)
    requires Counted(unmatched, n, byes) && |f| == n && ByesOk(n, byes + [bye])
    requires if n % 2 == 1 then bye.Some? && ByeChoice(bye.value, unmatched, f) else bye.None?
    ensures NextBye(n, byes, bye, f)
  {
  }

  lemma WorkingSize(n: nat, byes: Byes, bye: Option<int>)
    requires ByesOk(n, byes + [bye])
    ensures |Working(n, bye)| == 2 * (n / 2)
  {
    ByesOkLast(n, byes, bye);
    WorkingCard(n, bye);
  }

  /** These rounds are what the engine builds from these scores, and they leave no further round. */
  ghost predicate StuckAfter(n: nat, scores: Scores, rounds: Rounds, byes: Byes, bye: Option<int>, f: Forbidden) {
    && History(n, rounds, byes, f) && AllFollow(n, rounds, byes, scores)
    && NextBye(n, byes, bye, f) && !HasPerfect(Working(n, bye), f)
  }

  /** The engine's own k rounds on these scores leave no further round. */
  ghost predicate BlockedAt(n: nat, scores: Scores, k: nat) {
    exists rounds, byes, bye, f :: |rounds| == k && StuckAfter(n, scores, rounds, byes, bye, f)
  }

  /** A repaired round is the best-first solution with each pair put in ascending order. */
  ghost predicate Repaired(pairs: seq<Edge>, w: set<int>, f: Forbidden, scores: Scores)
    requires InRange(w, |f|) && Square(|f|, scores)
  {
    exists ps :: BestFirst(ps, w, f, scores) && PerfectOn(ps, w) && pairs == CanonAll(ps)
  }

  /** The greedy pass runs into a dead end: after some greedy picks the hardest person has nobody left. */
  ghost predicate GreedyStuck(w: set<int>, f: Forbidden, scores: Scores)
    requires InRange(w, |f|) && Square(|f|, scores)
  {
    exists ps, p :: GreedyPicks(ps, w, f, scores) && Partial(ps, w, f) && Stranded(p, w - Ends(ps), f)
  }

  /** The greedy pass runs into a dead end at p. */
  ghost predicate Strands(p: int, w: set<int>, f: Forbidden, scores: Scores)
    requires InRange(w, |f|) && Square(|f|, scores)
  {
    0 <= p < |f| && exists ps :: GreedyPicks(ps, w, f, scores) && Partial(ps, w, f) && Stranded(p, w - Ends(ps), f)
  }

  lemma WitnessStuck(ps: seq<Edge>, p: int, w: set<int>, f: Forbidden, g: Forbidden, scores: Scores)
    requires InRange(w, |f|) && Square(|f|, scores) && Underway(w, f, ps, g, scores) && Stranded(p, w - Ends(ps), f)
    ensures GreedyStuck(w, f, scores) && Strands(p, w, f, scores)
  {
    assert p in w;
    hide GreedyPicks, Partial, Stranded, Ends;
  }

  /** Of those who never sat out, b has the most people left to meet; ties go to the larger rank. */
  ghost predicate MostFlexible(b: int, byes: Byes, f: Forbidden) {
    && 0 <= b < |f| && Some(b) !in byes
    && forall i :: 0 <= i < |f| && Some(i) !in byes ==> |f[i]| > |f[b]| || (|f[i]| == |f[b]| && i <= b)
  }

  /** How a round follows from the rounds before it: the bye, then greedy picks, or else a repair. */
  ghost predicate FollowsFrom(n: nat, rounds: Rounds, byes: Byes, ps: seq<Edge>, bye: Option<int>, scores: Scores) {
    exists f: Forbidden :: |f| == n && Tracks(f, rounds) && Follows(f, byes, ps, bye, scores)
  }

  ghost predicate Follows(f: Forbidden, byes: Byes, ps: seq<Edge>, bye: Option<int>, scores: Scores) {
    var w := Working(|f|, bye);
    && (bye.Some? ==> MostFlexible(bye.value, byes, f))
    && InRange(w, |f|) && Square(|f|, scores)
    && (GreedyPicks(ps, w, f, scores) || (GreedyStuck(w, f, scores) && Repaired(ps, w, f, scores)))
  }

  ghost predicate AllFollow(n: nat, rounds: Rounds, byes: Byes, scores: Scores) {
    |rounds| == |byes| && forall r :: 0 <= r < |rounds| ==> FollowsFrom(n, rounds[..r], byes[..r], rounds[r], byes[r], scores)
  }

  lemma FollowAppend(n: nat, rounds: Rounds, byes: Byes, scores: Scores, f: Forbidden, unmatched: seq<int>, ps: seq<Edge>, bye: Option<int>)
    requires AllFollow(n, rounds, byes, scores) && |f| == n && Tracks(f, rounds) && Counted(unmatched, n, byes)
    requires bye.Some? ==> ByeChoice(bye.value, unmatched, f)
    requires InRange(Working(n, bye), n) && Square(n, scores)
    requires GreedyPicks(ps, Working(n, bye), f, scores) ||
             (GreedyStuck(Working(n, bye), f, scores) && Repaired(ps, Working(n, bye), f, scores))
    ensures AllFollow(n, rounds + [ps], byes + [bye], scores)
  {
    hide Tracks, GreedyPicks, GreedyStuck, Repaired, Working;
    assert Follows(f, byes, ps, bye, scores);
    assert FollowsFrom(n, rounds, byes, ps, bye, scores);
    hide FollowsFrom;
    var more, moreByes := rounds + [ps], byes + [bye];
    forall r | 0 <= r < |more| ensures FollowsFrom(n, more[..r], moreByes[..r], more[r], moreByes[r], scores) {
      if r < |rounds| {
        assert more[..r] == rounds[..r] && moreByes[..r] == byes[..r];
      } else {
        assert more[..r] == rounds && moreByes[..r] == byes;
      }
    }
  }

  lemma NormaliseRound(ps: seq<Edge>, w: set<int>, f: Forbidden, g: Forbidden, scores: Scores)
    requires InRange(w, |f|) && Square(|f|, scores) && Mutual(f) && Solves(ps, w, f, g, scores)
    ensures IsRound(CanonAll(ps), w) && Avoids(CanonAll(ps), f) && Records(f, CanonAll(ps), g)
    ensures Repaired(CanonAll(ps), w, f, scores)
  {
    hide BestFirst, Ascending, Avoids, Records, Mutual;
    CanonAllEnds(ps);
    CanonAllMatching(ps);
    CanonAllAvoids(ps, f);
    CanonAllRecords(ps, f, g);
  }

  lemma StartGreedy(w: set<int>, f: Forbidden, scores: Scores)
    requires InRange(w, |f|) && Square(|f|, scores)
    ensures Underway(w, f, [], f, scores)
  {
  }

  lemma PartialCovers(ps: seq<Edge>, w: set<int>, f: Forbidden)
    requires Partial(ps, w, f) && w - Ends(ps) == {}
    ensures Ends(ps) == w
  {
  }

  lemma HardestByCount(p: int, w: set<int>, f: Forbidden, count: map<int, int>)
    requires InRange(w, |f|) && Recounted(count, w, f) && p in w
    requires forall c :: c in w ==> count[p] < count[c] || (count[p] == count[c] && p <= c)
    ensures Hardest(p, w, f)
  {
    hide Choices;
  }

  lemma ListedOnce(candidates: seq<int>, row: seq<real>, w: set<int>)
    requires forall q :: q in candidates ==> q in w
    requires forall i, j :: 0 <= i < j < |candidates| ==> Better(row, candidates[i], candidates[j])
    ensures |candidates| <= |w|
  {
    assert forall i :: 0 <= i < |candidates| ==> candidates[i] in candidates;
    DistinctSeqFits(candidates, w);
  }

  /** Exactly the allowed partners of p in `w`, best score first. */
  ghost predicate CandidatesOf(candidates: seq<int>, p: int, w: set<int>, f: Forbidden, row: seq<real>) {
    && (forall q :: q in candidates <==> q in w && Allowed(f, p, q))
    && (forall i, j :: 0 <= i < j < |candidates| ==> Better(row, candidates[i], candidates[j]))
  }

  /** The first t candidates each leave an unsolvable rest. */
  ghost predicate DeadUpTo(p: int, candidates: seq<int>, t: int, w: set<int>, f: Forbidden) {
    forall u :: 0 <= u < t <= |candidates| ==> !HasPerfect(w - {p, candidates[u]}, f)
  }

  lemma HardestIsThere(p: int, w: set<int>, f: Forbidden)
    requires InRange(w, |f|) && Hardest(p, w, f)
    ensures p in w
  {
  }

  lemma NobodyDeadYet(p: int, candidates: seq<int>, w: set<int>, f: Forbidden)
    ensures DeadUpTo(p, candidates, 0, w, f)
  {
  }

  lemma NothingSearched(nodes: int, s: nat)
    requires 0 < nodes <= MAX_RECOVERY_NODES
    ensures Searched(nodes, nodes, s, 0) && WithinFrame(nodes, s, 0)
  {
  }

  lemma DeadStep(p: int, candidates: seq<int>, t: nat, w: set<int>, f: Forbidden)
    requires t < |candidates| && DeadUpTo(p, candidates, t, w, f)
    requires !HasPerfect(w - {p, candidates[t]}, f)
    ensures DeadUpTo(p, candidates, t + 1, w, f)
  {
  }

  lemma DeadSoFar(p: int, candidates: seq<int>, t: nat, w: set<int>, f: Forbidden, scores: Scores)
    requires InRange(w, |f|) && Square(|f|, scores) && 0 <= p < |f| && t < |candidates|
    requires CandidatesOf(candidates, p, w, f, scores[p])
    requires DeadUpTo(p, candidates, t, w, f)
    ensures DeadBefore(p, candidates[t], w, f, scores)
  {
    forall c | c in w && Allowed(f, p, c) && Better(scores[p], c, candidates[t])
      ensures !HasPerfect(w - {p, c}, f)
    {
      assert c in candidates;
      var i :| 0 <= i < |candidates| && candidates[i] == c;
      assert i < t;
    }
  }

  lemma AllDeadMeansNone(p: int, candidates: seq<int>, w: set<int>, f: Forbidden, row: seq<real>)
    requires Mutual(f) && p in w && CandidatesOf(candidates, p, w, f, row)
    requires DeadUpTo(p, candidates, |candidates|, w, f)
    ensures !HasPerfect(w, f)
  {
    if HasPerfect(w, f) {
      var q := SomeBranchLives(w, f, p);
      assert false;
    }
  }
}

/** From ranks back to participant ids, and why nothing is lost on the way. */
module Publication {
  import opened Wrappers
  import opened Sets
  import opened Sorting
  import opened Graph
  import opened Ranking
  import opened RoundHistory
  import opened Improvement
  import opened ScheduleTypes
  import opened ScheduleMeaning

  function EdgeLeq(): (Edge, Edge) -> bool {
    (e: Edge, g: Edge) => e.a < g.a || (e.a == g.a && e.b <= g.b)
  }

  ghost predicate NamesFor(idx: seq<Pid>, pids: set<Pid>) {
    Distinct(idx) && forall x :: x in pids <==> x in idx
  }

  ghost predicate EdgesBelow(ps: seq<Edge>, n: int) {
    forall k :: 0 <= k < |ps| ==> 0 <= ps[k].a < ps[k].b < n
  }

  function PublishPairs(ps: seq<Edge>, idx: seq<Pid>, scores: Scores): (out: seq<SchedulePair>)
    requires EdgesBelow(ps, |idx|)
    ensures |out| == |ps|
  {
    seq(|ps|, k requires 0 <= k < |ps| => SchedulePair(idx[ps[k].a], idx[ps[k].b], Score(scores, ps[k])))
  }

  ghost predicate ByeInRange(bye: Option<int>, n: int) {
    bye.Some? ==> 0 <= bye.value < n
  }

  function PublishRound(number: int, ps: seq<Edge>, bye: Option<int>, idx: seq<Pid>, scores: Scores): ScheduleRound
    requires EdgesBelow(ps, |idx|) && ByeInRange(bye, |idx|)
  {
    ScheduleRound(number, PublishPairs(ps, idx, scores), if bye.Some? then Some(idx[bye.value]) else None)
  }

  lemma RoundEdgesBelow(ps: seq<Edge>, n: nat, bye: Option<int>)
    requires IsRound(ps, Working(n, bye))
    ensures EdgesBelow(ps, n)
  {
    forall k | 0 <= k < |ps| ensures 0 <= ps[k].a < ps[k].b < n {
      EndsMember(ps, ps[k].a);
      EndsMember(ps, ps[k].b);
      assert Touches(ps[k], ps[k].a) && Touches(ps[k], ps[k].b);
    }
  }

  /** Sorting a round's pairs leaves it a round of the same people. */
  lemma SortedIsRound(ps: seq<Edge>, w: set<int>)
    requires IsRound(ps, w)
    ensures IsRound(Sorted(ps, EdgeLeq()), w) && PairSet(Sorted(ps, EdgeLeq())) == PairSet(ps)
  {
    var qs := Sorted(ps, EdgeLeq());
    SortedKeeps(ps, EdgeLeq());
    MatchingPermutes(ps, qs);
    EndsPermute(ps, qs);
    forall k | 0 <= k < |qs| ensures qs[k].a < qs[k].b {
      var l := IndexIn(ps, qs, k);
    }
    forall e ensures e in ps <==> e in qs {
      assert e in ps <==> e in multiset(ps);
      assert e in qs <==> e in multiset(qs);
    }
  }

  /** Index i is paired in the published round exactly when rank i is paired in the round. */
  lemma PublishedPaired(ps: seq<Edge>, idx: seq<Pid>, scores: Scores, i: int)
    requires EdgesBelow(ps, |idx|) && Distinct(idx) && 0 <= i < |idx|
    ensures Paired(PublishPairs(ps, idx, scores), idx[i]) <==> i in Ends(ps)
  {
    var out := PublishPairs(ps, idx, scores);
    EndsMember(ps, i);
    if k :| 0 <= k < |ps| && Touches(ps[k], i) {
      assert InPair(out[k], idx[i]);
    }
    if k :| 0 <= k < |out| && InPair(out[k], idx[i]) {
      assert Touches(ps[k], i);
    }
  }

  lemma PublishedApart(ps: seq<Edge>, idx: seq<Pid>, scores: Scores, pids: set<Pid>)
    requires EdgesBelow(ps, |idx|) && IsMatching(ps) && NamesFor(idx, pids)
    ensures ProperPairs(PublishPairs(ps, idx, scores), pids)
  {
    var out := PublishPairs(ps, idx, scores);
    forall k, l | 0 <= k < l < |out| ensures PairsApart(out[k], out[l]) {
      assert Apart(ps[k], ps[l]);
    }
  }

  /** A round on the ranks becomes a round in which every participant appears exactly once. */
  lemma PublishedOnce(number: int, ps: seq<Edge>, bye: Option<int>, idx: seq<Pid>, scores: Scores, pids: set<Pid>)
    requires IsRound(ps, Working(|idx|, bye)) && EdgesBelow(ps, |idx|) && ByeInRange(bye, |idx|) && NamesFor(idx, pids)
    ensures ExactlyOnce(PublishRound(number, ps, bye, idx, scores), pids)
  {
    var r := PublishRound(number, ps, bye, idx, scores);
    PublishedApart(ps, idx, scores, pids);
    forall x | x in pids ensures Paired(r.pairs, x) <==> r.unmatched != Some(x) {
      var i :| 0 <= i < |idx| && idx[i] == x;
      PublishedPaired(ps, idx, scores, i);
      assert Within(i, |idx|);
      assert i in Working(|idx|, bye) <==> bye != Some(i);
    }
  }

  /** Two published pairs with the same people come from the same pair of ranks. */
  lemma PublishedTogether(e: Edge, g: Edge, idx: seq<Pid>)
    requires 0 <= e.a < e.b < |idx| && 0 <= g.a < g.b < |idx| && Distinct(idx)
    requires (idx[e.a] == idx[g.a] && idx[e.b] == idx[g.b]) || (idx[e.a] == idx[g.b] && idx[e.b] == idx[g.a])
    ensures e == g
  {
  }

  ghost predicate Publishes(schedule: Schedule, rounds: Rounds, byes: Byes, idx: seq<Pid>, scores: Scores) {
    && |schedule| == |rounds| == |byes|
    && forall r :: 0 <= r < |rounds| ==> PublishesRound(schedule[r], r + 1, rounds[r], byes[r], idx, scores)
  }

  ghost predicate PublishesRound(out: ScheduleRound, number: int, ps: seq<Edge>, bye: Option<int>, idx: seq<Pid>, scores: Scores) {
    && ByeInRange(bye, |idx|) && EdgesBelow(Sorted(ps, EdgeLeq()), |idx|)
    && out == PublishRound(number, Sorted(ps, EdgeLeq()), bye, idx, scores)
  }

  method Publish(rounds: Rounds, byes: Byes, idx: seq<Pid>, scores: Scores) returns (schedule: Schedule)
    requires AllRounds(|idx|, rounds, byes) && forall r :: 0 <= r < |byes| ==> ByeInRange(byes[r], |idx|)
    ensures Publishes(schedule, rounds, byes, idx, scores)
  {
    hide IsRound, EdgesBelow, PublishRound, Sorted;
    schedule := [];
    for r := 0 to |rounds|
      invariant |schedule| == r
      invariant forall s :: 0 <= s < r ==> PublishesRound(schedule[s], s + 1, rounds[s], byes[s], idx, scores)
    {
      SortedIsRound(rounds[r], Working(|idx|, byes[r]));
      RoundEdgesBelow(Sorted(rounds[r], EdgeLeq()), |idx|, byes[r]);
      schedule := schedule + [PublishRound(r + 1, Sorted(rounds[r], EdgeLeq()), byes[r], idx, scores)];
    }
  }

  /** The first members of the pairs come in the order of their ranks. */
  ghost predicate InRankOrder(pairs: seq<SchedulePair>, idx: seq<Pid>) {
    forall k, l, i, j :: (0 <= k < l < |pairs| && 0 <= i < |idx| && 0 <= j < |idx|
                          && idx[i] == pairs[k].pidA && idx[j] == pairs[l].pidA) ==> i < j
  }

  lemma SortedInOrder(ps: seq<Edge>)
    requires IsMatching(ps)
    ensures var qs := Sorted(ps, EdgeLeq());
            |qs| == |ps| && forall k, l :: 0 <= k < l < |qs| ==> qs[k].a < qs[l].a
  {
    var qs := Sorted(ps, EdgeLeq());
    SortedKeeps(ps, EdgeLeq());
    assert |multiset(ps)| == |ps| && |multiset(qs)| == |qs|;
    SortedSorts(ps, EdgeLeq());
    MatchingPermutes(ps, qs);
    forall k, l | 0 <= k < l < |qs| ensures qs[k].a < qs[l].a {
      assert EdgeLeq()(qs[k], qs[l]) && Apart(qs[k], qs[l]);
    }
  }

  /** What a published round shows: its number, who sits out, every pair with its score, in rank order. */
  lemma PublishedTold(schedule: Schedule, rounds: Rounds, byes: Byes, idx: seq<Pid>, scores: Scores, r: nat)
    requires AllRounds(|idx|, rounds, byes) && Distinct(idx) && Publishes(schedule, rounds, byes, idx, scores) && r < |schedule|
    ensures schedule[r].number == r + 1 && (schedule[r].unmatched.Some? <==> byes[r].Some?)
    ensures forall i :: 0 <= i < |idx| ==> (schedule[r].unmatched == Some(idx[i]) <==> byes[r] == Some(i))
    ensures |schedule[r].pairs| == |rounds[r]| && InRankOrder(schedule[r].pairs, idx)
    ensures forall e :: e in rounds[r] ==> 0 <= e.a < e.b < |idx| && SchedulePair(idx[e.a], idx[e.b], Score(scores, e)) in schedule[r].pairs
  {
    hide Sorted, EdgeLeq;
    var ps, qs := rounds[r], Sorted(rounds[r], EdgeLeq());
    assert IsRound(ps, Working(|idx|, byes[r]));
    assert PublishesRound(schedule[r], r + 1, rounds[r], byes[r], idx, scores);
    SortedInOrder(ps);
    SortedKeeps(ps, EdgeLeq());
    hide IsRound, Working, Score;
    forall e | e in ps ensures 0 <= e.a < e.b < |idx| && SchedulePair(idx[e.a], idx[e.b], Score(scores, e)) in schedule[r].pairs {
      assert e in multiset(qs);
      var k :| 0 <= k < |qs| && qs[k] == e;
      assert schedule[r].pairs[k] == SchedulePair(idx[e.a], idx[e.b], Score(scores, e));
    }
    RankedPairs(schedule[r].pairs, qs, idx, scores);
  }

  lemma RankedPairs(pairs: seq<SchedulePair>, qs: seq<Edge>, idx: seq<Pid>, scores: Scores)
    requires EdgesBelow(qs, |idx|) && Distinct(idx) && pairs == PublishPairs(qs, idx, scores)
    requires forall k, l :: 0 <= k < l < |qs| ==> qs[k].a < qs[l].a
    ensures InRankOrder(pairs, idx)
  {
  }

  lemma PublishedNoRepeat(schedule: Schedule, rounds: Rounds, byes: Byes, idx: seq<Pid>, scores: Scores)
    requires AllRounds(|idx|, rounds, byes) && DisjointRounds(rounds) && Distinct(idx)
    requires Publishes(schedule, rounds, byes, idx, scores)
    ensures NobodyMeetsTwice(schedule)
  {
    forall r, s, k, l | 0 <= r < s < |schedule| && 0 <= k < |schedule[r].pairs| && 0 <= l < |schedule[s].pairs|
      ensures !Together(schedule[r].pairs[k], schedule[s].pairs[l].pidA, schedule[s].pairs[l].pidB)
    {
      OnePairNoRepeat(schedule, rounds, byes, idx, scores, r, s, k, l);
    }
  }

  lemma OnePairNoRepeat(schedule: Schedule, rounds: Rounds, byes: Byes, idx: seq<Pid>, scores: Scores, r: int, s: int, k: int, l: int)
    requires AllRounds(|idx|, rounds, byes) && DisjointRounds(rounds) && Distinct(idx)
    requires Publishes(schedule, rounds, byes, idx, scores)
    requires 0 <= r < s < |schedule| && 0 <= k < |schedule[r].pairs| && 0 <= l < |schedule[s].pairs|
    ensures !Together(schedule[r].pairs[k], schedule[s].pairs[l].pidA, schedule[s].pairs[l].pidB)
  {
    hide IsRound, Sorted;
    var ps, qs := Sorted(rounds[r], EdgeLeq()), Sorted(rounds[s], EdgeLeq());
    SortedIsRound(rounds[r], Working(|idx|, byes[r]));
    SortedIsRound(rounds[s], Working(|idx|, byes[s]));
    assert PublishesRound(schedule[r], r + 1, rounds[r], byes[r], idx, scores);
    assert PublishesRound(schedule[s], s + 1, rounds[s], byes[s], idx, scores);
    assert PairSet(ps) !! PairSet(qs);
    assert ps[k] in PairSet(ps) && qs[l] in PairSet(qs);
    assert schedule[r].pairs[k] == SchedulePair(idx[ps[k].a], idx[ps[k].b], Score(scores, ps[k]));
    assert schedule[s].pairs[l] == SchedulePair(idx[qs[l].a], idx[qs[l].b], Score(scores, qs[l]));
    if Together(schedule[r].pairs[k], schedule[s].pairs[l].pidA, schedule[s].pairs[l].pidB) {
      PublishedTogether(ps[k], qs[l], idx);
    }
  }

  /** Rounds on ranks, no two sharing a pair, become a schedule that keeps the promise. */
  lemma PublishedIsSound(schedule: Schedule, rounds: Rounds, byes: Byes, idx: seq<Pid>, scores: Scores, pids: set<Pid>)
    requires AllRounds(|idx|, rounds, byes) && DisjointRounds(rounds) && ByesOk(|idx|, byes) && NamesFor(idx, pids)
    requires Publishes(schedule, rounds, byes, idx, scores)
    ensures Sound(schedule, pids, |rounds|)
  {
    hide DisjointRounds, NobodyMeetsTwice, ExactlyOnce, IsRound, Sorted, EdgesBelow, Working;
    PublishedNoRepeat(schedule, rounds, byes, idx, scores);
    forall r | 0 <= r < |schedule| ensures ExactlyOnce(schedule[r], pids) {
      var ps := Sorted(rounds[r], EdgeLeq());
      assert PublishesRound(schedule[r], r + 1, rounds[r], byes[r], idx, scores);
      SortedIsRound(rounds[r], Working(|idx|, byes[r]));
      PublishedOnce(r + 1, ps, byes[r], idx, scores, pids);
    }
    PublishedByes(schedule, rounds, byes, idx, scores);
  }

  lemma PublishedByes(schedule: Schedule, rounds: Rounds, byes: Byes, idx: seq<Pid>, scores: Scores)
    requires ByesOk(|idx|, byes) && Distinct(idx) && Publishes(schedule, rounds, byes, idx, scores)
    ensures NobodySitsOutTwice(schedule) && NumberedOnce(schedule, |rounds|)
  {
    hide Sorted, EdgesBelow, PublishPairs;
    forall r, s | 0 <= r < s < |schedule| && schedule[r].unmatched.Some?
      ensures schedule[r].unmatched != schedule[s].unmatched
    {
      assert PublishesRound(schedule[r], r + 1, rounds[r], byes[r], idx, scores);
      assert PublishesRound(schedule[s], s + 1, rounds[s], byes[s], idx, scores);
      assert byes[r] != byes[s];
    }
    forall r | 0 <= r < |schedule| ensures schedule[r].number == r + 1 {
      assert PublishesRound(schedule[r], r + 1, rounds[r], byes[r], idx, scores);
    }
  }
}

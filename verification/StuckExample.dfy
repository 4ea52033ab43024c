/**
 The generator on six participants whose tags put them into two groups: a request for four or
 five rounds, which passes the up-front check, always fails in round 4, with hardly any search.
 */
module StuckExample {
  import opened Wrappers
  import opened Sets
  import opened Sorting
  import opened Scoring
  import opened Graph
  import opened Ranking
  import opened Recovery
  import opened RoundHistory
  import opened RoundBuilding
  import opened Improvement
  import opened ScheduleTypes
  import opened Matching
  import opened StuckInput

  // ----- the tags

  function Digit(i: int): char {
    if i == 0 then '0' else if i == 1 then '1' else if i == 2 then '2' else if i == 3 then '3' else if i == 4 then '4' else '5'
  }

  /** The tag that i of the first group and j of the second share. */
  function Tag(i: int, j: int): string {
    [Digit(i), Digit(j)]
  }

  function TagsOf(i: int): set<string> {
    if i < 3 then {Tag(i, 3), Tag(i, 4), Tag(i, 5)} else {Tag(0, i), Tag(1, i), Tag(2, i)}
  }

  lemma TagsDiffer(i: int, j: int, k: int, l: int)
    requires 0 <= i < 6 && 0 <= j < 6 && 0 <= k < 6 && 0 <= l < 6
    ensures Tag(i, j) == Tag(k, l) <==> i == k && j == l
  {
    assert Tag(i, j)[0] == Digit(i) && Tag(i, j)[1] == Digit(j);
    assert Tag(k, l)[0] == Digit(k) && Tag(k, l)[1] == Digit(l);
  }

  lemma ThreeTags(i: int)
    requires 0 <= i < 6
    ensures |TagsOf(i)| == 3
  {
    hide Tag;
    if i < 3 {
      TagsDiffer(i, 3, i, 4); TagsDiffer(i, 3, i, 5); TagsDiffer(i, 4, i, 5);
    } else {
      TagsDiffer(0, i, 1, i); TagsDiffer(0, i, 2, i); TagsDiffer(1, i, 2, i);
    }
  }

  /** Who shares what: exactly one tag across the groups, none within. */
  lemma SharedTags(i: int, j: int)
    requires 0 <= i < 3 <= j < 6
    ensures TagsOf(i) * TagsOf(j) == {Tag(i, j)}
  {
    hide Tag;
    forall a, b | a in {3, 4, 5} && b in {0, 1, 2} ensures Tag(i, a) == Tag(b, j) <==> a == j && b == i {
      TagsDiffer(i, a, b, j);
    }
  }

  lemma NoSharedTags(i: int, j: int)
    requires 0 <= i < 6 && 0 <= j < 6 && i != j && (i < 3) == (j < 3)
    ensures TagsOf(i) * TagsOf(j) == {}
  {
    hide Tag;
    if i < 3 {
      forall a, b | a in {3, 4, 5} && b in {3, 4, 5} ensures Tag(i, a) != Tag(j, b) { TagsDiffer(i, a, j, b); }
    } else {
      forall a, b | a in {0, 1, 2} && b in {0, 1, 2} ensures Tag(a, i) != Tag(b, j) { TagsDiffer(a, i, b, j); }
    }
  }

  lemma ScoreAcross(i: int, j: int, weight: Weight)
    requires 0 <= i < 3 <= j < 6
    ensures ComputeMatchScore(Profile(TagsOf(i)), Profile(TagsOf(j)), weight) == Weighted(1, 5, weight)
  {
    hide Weighted, TagsOf;
    ThreeTags(i);
    ThreeTags(j);
    SharedTags(i, j);
    assert |TagsOf(i) + TagsOf(j)| == 5;
  }

  lemma ScoreWithin(i: int, j: int, weight: Weight)
    requires 0 <= i < 6 && 0 <= j < 6 && i != j && (i < 3) == (j < 3)
    ensures ComputeMatchScore(Profile(TagsOf(i)), Profile(TagsOf(j)), weight) == 0.0
  {
    hide TagsOf, ComputeMatchScore;
    NoSharedTags(i, j);
    ScoreIsZero(Profile(TagsOf(i)), Profile(TagsOf(j)), weight);
  }

  // ----- the input

  /** Six participants with these ids, in this order by UUID, and these tags. */
  function SixParticipants(ids: seq<Pid>): (participants: seq<Participant>)
    requires |ids| == 6
    ensures |participants| == 6
  {
    seq(6, i requires 0 <= i < 6 => Participant(ids[i], Profile(TagsOf(i))))
  }

  ghost predicate InUuidOrder(parse: UuidParse, ids: seq<Pid>) {
    (forall i :: 0 <= i < |ids| ==> Parses(parse, ids[i]))
    && (forall i, j :: 0 <= i < j < |ids| ==> UuidOf(parse, ids[i]) < UuidOf(parse, ids[j]))
  }

  /** Sorting changes nothing when everything is in order already. */
  lemma {:induction false} SortedAlready<T>(xs: seq<T>, leq: (T, T) -> bool)
    requires forall i, j :: 0 <= i < j < |xs| ==> leq(xs[i], xs[j])
    ensures Sorted(xs, leq) == xs
  {
    if xs != [] {
      SortedAlready(xs[..|xs| - 1], leq);
    }
  }

  /** The profile of the last participant with an id is the one that counts. */
  lemma {:induction false} ProfileOfId(participants: seq<Participant>, i: int)
    requires Distinct(Pids(participants)) && 0 <= i < |participants|
    ensures participants[i].pid in ProfileMap(participants)
         && ProfileMap(participants)[participants[i].pid] == participants[i].profile
  {
    var n := |participants| - 1;
    var pids := Pids(participants);
    if i < n {
      assert pids[i] != pids[n];
      assert Pids(participants[..n]) == pids[..n];
      ProfileOfId(participants[..n], i);
    }
  }

  lemma InOrderIsDistinct(parse: UuidParse, ids: seq<Pid>)
    requires InUuidOrder(parse, ids)
    ensures Distinct(ids)
  {
  }

  lemma SixScores(parse: UuidParse, ids: seq<Pid>, numRounds: int, weight: Weight, scores: Scores)
    requires |ids| == 6 && InUuidOrder(parse, ids) && weight > 0.0
    requires ScoresFor(parse, MatchInput(SixParticipants(ids), numRounds, weight), scores)
    ensures GroupScores(scores, Weighted(1, 5, weight))
  {
    hide ComputeMatchScore, TagsOf, ProfileMap, Sorted, UuidOf, Weighted;
    var participants := SixParticipants(ids);
    var input := MatchInput(participants, numRounds, weight);
    RanksAreIds(parse, ids, input);
    var idx, profileOf := Ranked(parse, input), ProfileMap(participants);
    forall i | 0 <= i < 6 ensures idx[i] in profileOf && profileOf[idx[i]] == Profile(TagsOf(i)) {
      ProfileOfId(participants, i);
    }
    PositiveScore(weight);
    forall i, j | 0 <= i < 6 && 0 <= j < 6 && i != j
      ensures scores[i][j] == if (i < 3) == (j < 3) then 0.0 else Weighted(1, 5, weight)
    {
      if (i < 3) == (j < 3) {
        ScoreWithin(i, j, weight);
      } else if i < 3 {
        ScoreAcross(i, j, weight);
      } else {
        ScoreAcross(j, i, weight);
        ScoreIsSymmetric(Profile(TagsOf(i)), Profile(TagsOf(j)), weight);
      }
    }
  }

  lemma RanksAreIds(parse: UuidParse, ids: seq<Pid>, input: MatchInput)
    requires |ids| == 6 && InUuidOrder(parse, ids) && input.participants == SixParticipants(ids)
    ensures Ranked(parse, input) == Pids(input.participants) == ids && Distinct(ids)
  {
    hide Sorted, UuidOf;
    assert Pids(input.participants) == ids;
    InOrderIsDistinct(parse, ids);
    SortedAlready(ids, UuidLeq(parse));
  }

  lemma PositiveScore(weight: Weight)
    requires weight > 0.0
    ensures Weighted(1, 5, weight) > 0.0
  {
    assert weight * (1 as real / 5 as real) == weight / 5.0;
  }

  /**
   Any answer of the generator to four or five rounds of these six participants is a failure in
   round 4: the input is accepted, the search is over after at most 36 calls, and no fourth
   round is left. So the guarantee for half of the rounds cannot be extended.
   */
  lemma SixParticipantsGetStuck(parse: UuidParse, ids: seq<Pid>, numRounds: int, weight: Weight, res: Result<Schedule, MatchingError>)
    requires |ids| == 6 && InUuidOrder(parse, ids) && weight > 0.0 && 4 <= numRounds <= 5
    requires Answer(parse, MatchInput(SixParticipants(ids), numRounds, weight), res)
    ensures UpfrontError(parse, MatchInput(SixParticipants(ids), numRounds, weight)).None?
    ensures res.Failure? && res.error.Unrecoverable? && res.error.round == 4 && res.error.nodes <= 36
  {
    hide ScoresFor, GroupScores, Delivers, History, AllFollow, EachImproved, SixParticipants;
    var input := MatchInput(SixParticipants(ids), numRounds, weight);
    SixAccepted(parse, ids, input);
    var scores :| ScoresFor(parse, input, scores) && AnswerFor(parse, input, scores, res);
    SixScores(parse, ids, numRounds, weight, scores);
    RanksAreIds(parse, ids, input);
    var s := Weighted(1, 5, weight);
    if res.Success? {
      NeverArises(ids, numRounds, scores, s, res.value);
    } else {
      FailsInRoundFour(res.error, numRounds, scores, s);
    }
  }

  lemma SixAccepted(parse: UuidParse, ids: seq<Pid>, input: MatchInput)
    requires |ids| == 6 && InUuidOrder(parse, ids) && input.participants == SixParticipants(ids) && 1 <= input.numRounds <= 5
    ensures UpfrontError(parse, input).None?
  {
    RanksAreIds(parse, ids, input);
  }

  lemma NeverArises(idx: seq<Pid>, numRounds: int, scores: Scores, s: real, schedule: Schedule)
    requires |idx| == 6 && numRounds >= 4 && GroupScores(scores, s)
    ensures !Arises(idx, numRounds, scores, schedule)
  {
    hide GroupScores, History, AllFollow, EachImproved;
    forall start, byes, f | |start| == numRounds && BuiltUp(6, scores, start, byes, f) ensures false {
      ThreeRoundsAtMost(start, byes, f, scores, s);
    }
  }

  lemma FailsInRoundFour(error: MatchingError, numRounds: int, scores: Scores, s: real)
    requires ExplainsFailure(error, 6, numRounds, scores) && GroupScores(scores, s)
    ensures error.round == 4 && error.nodes <= 36
  {
    hide GroupScores, History, AllFollow, HasPerfect, Working;
    SmallTrees(6);
    assert Tree(6) == 36;
    var rounds, byes, bye, f :| |rounds| == error.round - 1 && StuckAfter(6, scores, rounds, byes, bye, f);
    ThreeRoundsAtMost(rounds, byes, f, scores, s);
    if |rounds| < 3 {
      EarlyExists(6, rounds, byes, f, bye);
    }
  }
}

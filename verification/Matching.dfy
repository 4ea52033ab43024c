/**
 The schedule generator as a whole: checks, scores, rounds, local improvement and publication,
 with the guarantee that what it returns passes the independent checker.
 */
module Matching {
  import opened Wrappers
  import opened Sets
  import opened Sorting
  import opened Scoring
  import opened Graph
  import opened Ranking
  import opened Recovery
  import opened RoundHistory
  import opened RoundBuilding
  import opened Improvement
  import opened ScheduleTypes
  import opened Validation
  import opened ScheduleMeaning
  import opened Publication

  datatype Participant = Participant(pid: Pid, profile: Profile)

  datatype MatchInput = MatchInput(participants: seq<Participant>, numRounds: int, weight: Weight)

  datatype MatchingError =
    | NumRoundsTooSmall
    | DuplicateIds
    | InvalidIds
    | TooFewParticipants(count: int)
    | TooManyRounds(count: int, numRounds: int, maxRounds: int)
    | EverybodySatOut(round: int)
    | Unrecoverable(round: int, pid: Pid, nodes: nat)

  function Pids(participants: seq<Participant>): (pids: seq<Pid>)
    ensures |pids| == |participants|
  {
    seq(|participants|, i requires 0 <= i < |participants| => participants[i].pid)
  }

  function PidSet(participants: seq<Participant>): set<Pid> {
    set p | p in participants :: p.pid
  }

  /** The checks before any pairing, in their order. */
  function UpfrontError(parse: UuidParse, input: MatchInput): Option<MatchingError> {
    var pids, n := Pids(input.participants), |input.participants|;
    if input.numRounds < 1 then Some(NumRoundsTooSmall)
    else if !Distinct(pids) then Some(DuplicateIds)
    else if exists x :: x in pids && !Parses(parse, x) then Some(InvalidIds)
    else if n < 2 then Some(TooFewParticipants(n))
    else if input.numRounds > MaxRounds(n) then Some(TooManyRounds(n, input.numRounds, MaxRounds(n)))
    else None
  }

  // ----- ranks, scores and ranked partners

  function UuidOf(parse: UuidParse, x: Pid): int {
    if Parses(parse, x) then parse(x).value else 0
  }

  function UuidLeq(parse: UuidParse): (Pid, Pid) -> bool {
    (x: Pid, y: Pid) => UuidOf(parse, x) <= UuidOf(parse, y)
  }

  /** Rank i belongs to idx[i]; ranks follow the UUID order. */
  ghost predicate RanksOf(idx: seq<Pid>, parse: UuidParse, pids: seq<Pid>) {
    && |idx| == |pids| && multiset(idx) == multiset(pids) && Distinct(idx)
    && forall i, j :: 0 <= i < j < |idx| ==> UuidOf(parse, idx[i]) <= UuidOf(parse, idx[j])
  }

  lemma RankByUuid(parse: UuidParse, pids: seq<Pid>)
    requires Distinct(pids)
    ensures RanksOf(Sorted(pids, UuidLeq(parse)), parse, pids)
  {
    var leq := UuidLeq(parse);
    var idx := Sorted(pids, leq);
    SortedKeeps(pids, leq);
    SortedSorts(pids, leq);
    SortedDistinct(pids, leq);
    assert |multiset(idx)| == |multiset(pids)|;
    forall i, j | 0 <= i < j < |idx| ensures UuidOf(parse, idx[i]) <= UuidOf(parse, idx[j]) {
      assert leq(idx[i], idx[j]);
    }
  }

  ghost predicate ScoresOf(scores: Scores, profiles: seq<Profile>, weight: Weight) {
    Square(|profiles|, scores) && forall i, j :: 0 <= i < |profiles| && 0 <= j < |profiles| ==>
      scores[i][j] == if i == j then 0.0 else ComputeMatchScore(profiles[i], profiles[j], weight)
  }

  /** The symmetric score matrix: each pair is scored once and written to both places. */
  method BuildScores(profiles: seq<Profile>, weight: Weight) returns (scores: Scores)
    ensures ScoresOf(scores, profiles, weight)
  {
    hide ComputeMatchScore;
    var n := |profiles|;
    scores := seq(n, i => seq(n, j => 0.0));
    for i := 0 to n
      invariant Square(n, scores)
      invariant forall k, l :: 0 <= k < n && 0 <= l < n ==> scores[k][l] == Entered(profiles, weight, k, l, i, 0)
    {
      for j := i + 1 to n
        invariant Square(n, scores)
        invariant forall k, l :: 0 <= k < n && 0 <= l < n ==> scores[k][l] == Entered(profiles, weight, k, l, i, j)
      {
        var s := ComputeMatchScore(profiles[i], profiles[j], weight);
        ScoreIsSymmetric(profiles[i], profiles[j], weight);
        scores := scores[i := scores[i][j := s]];
        scores := scores[j := scores[j][i := s]];
      }
    }
  }

  /** What the matrix holds at (k, l) when row i has been filled up to column j. */
  ghost function Entered(profiles: seq<Profile>, weight: Weight, k: int, l: int, i: int, j: int): real
    requires 0 <= k < |profiles| && 0 <= l < |profiles|
  {
    var low, high := if k < l then k else l, if k < l then l else k;
    if k != l && (low < i || (low == i && high < j)) then ComputeMatchScore(profiles[k], profiles[l], weight) else 0.0
  }

  function RankLeq(row: seq<real>): (int, int) -> bool {
    (c: int, d: int) =>
      var sc, sd := if 0 <= c < |row| then row[c] else 0.0, if 0 <= d < |row| then row[d] else 0.0;
      sc > sd || (sc == sd && c <= d)
  }

  function Others(n: nat, p: int): seq<int> {
    if n == 0 then [] else if n - 1 == p then Others(n - 1, p) else Others(n - 1, p) + [n - 1]
  }

  lemma {:induction false} OthersAre(n: nat, p: int)
    ensures forall x :: x in Others(n, p) <==> 0 <= x < n && x != p
    ensures Distinct(Others(n, p))
  {
    if n > 0 {
      OthersAre(n - 1, p);
      var rest := Others(n - 1, p);
      assert forall i :: 0 <= i < |rest| ==> rest[i] in rest;
    }
  }

  /** Sorting does not create repetitions. */
  lemma SortedDistinct<T(!new)>(xs: seq<T>, leq: (T, T) -> bool)
    requires Distinct(xs)
    ensures Distinct(Sorted(xs, leq))
  {
    var list := Sorted(xs, leq);
    SortedKeeps(xs, leq);
    forall i, j | 0 <= i < j < |list| ensures list[i] != list[j] {
      DistinctOccursOnce(xs, list[i]);
      if list[i] == list[j] {
        TwiceInSeq(list, i, j);
      }
    }
  }

  lemma SortedMembers<T(!new)>(xs: seq<T>, leq: (T, T) -> bool, x: T)
    ensures x in Sorted(xs, leq) <==> x in xs
  {
    SortedKeeps(xs, leq);
    assert x in Sorted(xs, leq) <==> x in multiset(Sorted(xs, leq));
    assert x in xs <==> x in multiset(xs);
  }

  /** Sorting everybody else by (-score, rank) gives p's ranked list. */
  lemma RankedListIsRanked(n: nat, p: int, row: seq<real>)
    requires |row| == n
    ensures RankedFor(Sorted(Others(n, p), RankLeq(row)), n, p, row)
  {
    hide Sorted, Others, Better;
    var xs, leq := Others(n, p), RankLeq(row);
    var list := Sorted(xs, leq);
    OthersAre(n, p);
    RankLeqIsTotal(row);
    SortedSorts(xs, leq);
    SortedDistinct(xs, leq);
    forall x ensures x in list <==> 0 <= x < n && x != p {
      SortedMembers(xs, leq, x);
    }
    RankedPairs(list, n, p, row);
  }

  lemma RankLeqIsTotal(row: seq<real>)
    ensures TotalPreorder(RankLeq(row))
  {
  }

  lemma RankedPairs(list: seq<int>, n: nat, p: int, row: seq<real>)
    requires |row| == n && SortedBy(list, RankLeq(row)) && Distinct(list)
    requires forall x :: x in list <==> 0 <= x < n && x != p
    ensures forall i, j :: 0 <= i < j < |list| ==> Better(row, list[i], list[j])
  {
    forall i, j | 0 <= i < j < |list| ensures Better(row, list[i], list[j]) {
      assert RankLeq(row)(list[i], list[j]);
      assert list[i] in list && list[j] in list;
    }
  }

  method RankPartners(n: nat, scores: Scores) returns (ranked: seq<seq<int>>)
    requires Square(n, scores)
    ensures AllRanked(ranked, n, scores)
  {
    hide RankedFor;
    ranked := [];
    for p := 0 to n
      invariant |ranked| == p && forall q :: 0 <= q < p ==> RankedFor(ranked[q], n, q, scores[q])
    {
      RankedListIsRanked(n, p, scores[p]);
      ranked := ranked + [Sorted(Others(n, p), RankLeq(scores[p]))];
    }
  }

  // ----- what generation promises

  function ProfileMap(participants: seq<Participant>): map<Pid, Profile> {
    if participants == [] then map[]
    else ProfileMap(participants[..|participants| - 1])[participants[|participants| - 1].pid := participants[|participants| - 1].profile]
  }

  lemma {:induction false} ProfileMapKeys(participants: seq<Participant>)
    ensures ProfileMap(participants).Keys == PidSet(participants)
  {
    if participants != [] {
      var init, last := participants[..|participants| - 1], participants[|participants| - 1];
      ProfileMapKeys(init);
      assert participants == init + [last];
    }
  }

  predicate PairScored(sp: SchedulePair, profiles: map<Pid, Profile>, weight: Weight) {
    sp.pidA in profiles && sp.pidB in profiles &&
    sp.score == ComputeMatchScore(profiles[sp.pidA], profiles[sp.pidB], weight)
  }

  /** Every published score is the match score of the two people. */
  predicate AllScored(schedule: Schedule, profiles: map<Pid, Profile>, weight: Weight) {
    forall r, k :: 0 <= r < |schedule| && 0 <= k < |schedule[r].pairs| ==> PairScored(schedule[r].pairs[k], profiles, weight)
  }

  predicate PairAscends(parse: UuidParse, sp: SchedulePair) {
    UuidOf(parse, sp.pidA) <= UuidOf(parse, sp.pidB)
  }

  predicate AllAscend(parse: UuidParse, schedule: Schedule) {
    forall r, k :: 0 <= r < |schedule| && 0 <= k < |schedule[r].pairs| ==> PairAscends(parse, schedule[r].pairs[k])
  }

  /** No two people paired with each other spell the same UUID. */
  predicate NoSameUuidPaired(parse: UuidParse, schedule: Schedule) {
    forall r, k :: 0 <= r < |schedule| && 0 <= k < |schedule[r].pairs| ==>
      UuidOf(parse, schedule[r].pairs[k].pidA) != UuidOf(parse, schedule[r].pairs[k].pidB)
  }

  predicate DifferentUuids(parse: UuidParse, pids: set<Pid>) {
    forall x, y :: x in pids && y in pids && x != y ==> UuidOf(parse, x) != UuidOf(parse, y)
  }

  /**
   A generated schedule passes the checker exactly when no pair consists of two spellings of one
   UUID; a caller makes sure of that by passing ids with different UUIDs.
   */
  lemma GeneratedPasses(parse: UuidParse, schedule: Schedule, pids: set<Pid>, numRounds: int, profiles: map<Pid, Profile>, weight: Weight)
    requires Readable(parse, pids) && Sound(schedule, pids, numRounds)
    requires AllScored(schedule, profiles, weight) && AllAscend(parse, schedule)
    ensures Report(parse, schedule, pids, numRounds) == [] <==> NoSameUuidPaired(parse, schedule)
    ensures DifferentUuids(parse, pids) ==> Report(parse, schedule, pids, numRounds) == []
  {
    hide Report, Clean, NobodyMeetsTwice, NobodySitsOutTwice, NumberedOnce, ComputeMatchScore;
    ReportIsEmpty(parse, schedule, pids, numRounds);
    CleanMeansValid(parse, schedule, pids, numRounds);
    forall r, k | 0 <= r < |schedule| && 0 <= k < |schedule[r].pairs|
      ensures var sp := schedule[r].pairs[k];
              sp.pidA in pids && sp.pidB in pids && sp.pidA != sp.pidB && 0.0 <= sp.score <= 1.0 &&
              (Below(parse, sp.pidA, sp.pidB) <==> UuidOf(parse, sp.pidA) != UuidOf(parse, sp.pidB))
    {
      assert ExactlyOnce(schedule[r], pids);
      assert PairScored(schedule[r].pairs[k], profiles, weight) && PairAscends(parse, schedule[r].pairs[k]);
    }
    PresentableMeansDifferent(parse, schedule);
  }

  lemma PresentableMeansDifferent(parse: UuidParse, schedule: Schedule)
    requires forall r, k :: 0 <= r < |schedule| && 0 <= k < |schedule[r].pairs| ==>
               var sp := schedule[r].pairs[k];
               0.0 <= sp.score <= 1.0 && (Below(parse, sp.pidA, sp.pidB) <==> UuidOf(parse, sp.pidA) != UuidOf(parse, sp.pidB))
    ensures AllPresentable(parse, schedule) <==> NoSameUuidPaired(parse, schedule)
  {
    hide Below, UuidOf;
    if AllPresentable(parse, schedule) {
      forall r, k | 0 <= r < |schedule| && 0 <= k < |schedule[r].pairs|
        ensures UuidOf(parse, schedule[r].pairs[k].pidA) != UuidOf(parse, schedule[r].pairs[k].pidB)
      {
        assert Presentable(parse, schedule[r]);
      }
    }
  }

  /**
   When as many rounds are asked for as there can be, the condition on the schedule is the one a
   caller can check: the checker is satisfied if and only if all ids stand for different UUIDs.
   */
  lemma FullSchedulePassesIff(parse: UuidParse, schedule: Schedule, pids: set<Pid>, profiles: map<Pid, Profile>, weight: Weight)
    requires Readable(parse, pids) && Sound(schedule, pids, MaxRounds(|pids|))
    requires AllScored(schedule, profiles, weight) && AllAscend(parse, schedule)
    ensures Report(parse, schedule, pids, MaxRounds(|pids|)) == [] <==> DifferentUuids(parse, pids)
  {
    hide Report, AllScored, AllAscend, Sound, UuidOf;
    GeneratedPasses(parse, schedule, pids, MaxRounds(|pids|), profiles, weight);
    if NoSameUuidPaired(parse, schedule) {
      forall x, y | x in pids && y in pids && x != y ensures UuidOf(parse, x) != UuidOf(parse, y) {
        EverybodyMeets(schedule, pids, x, y);
        var i :| 0 <= i < |schedule| && MeetIn(schedule[i], x, y);
        var k :| 0 <= k < |schedule[i].pairs| && Together(schedule[i].pairs[k], x, y);
        assert UuidOf(parse, schedule[i].pairs[k].pidA) != UuidOf(parse, schedule[i].pairs[k].pidB);
      }
    }
  }

  lemma ScoreEntry(scores: Scores, profiles: seq<Profile>, weight: Weight, e: Edge)
    requires ScoresOf(scores, profiles, weight) && 0 <= e.a < e.b < |profiles|
    ensures Score(scores, e) == ComputeMatchScore(profiles[e.a], profiles[e.b], weight)
  {
    hide ComputeMatchScore;
  }

  lemma PublishedPairsGood(parse: UuidParse, schedule: Schedule, rounds: Rounds, byes: Byes, idx: seq<Pid>, scores: Scores,
                           profiles: seq<Profile>, profileOf: map<Pid, Profile>, weight: Weight)
    requires Publishes(schedule, rounds, byes, idx, scores) && ScoresOf(scores, profiles, weight) && |profiles| == |idx|
    requires forall i :: 0 <= i < |idx| ==> idx[i] in profileOf && profiles[i] == profileOf[idx[i]]
    requires forall i, j :: 0 <= i < j < |idx| ==> UuidOf(parse, idx[i]) <= UuidOf(parse, idx[j])
    ensures AllScored(schedule, profileOf, weight) && AllAscend(parse, schedule)
  {
    hide Sorted, ComputeMatchScore, UuidOf, ScoresOf, Score;
    forall r, k | 0 <= r < |schedule| && 0 <= k < |schedule[r].pairs|
      ensures PairScored(schedule[r].pairs[k], profileOf, weight) && PairAscends(parse, schedule[r].pairs[k])
    {
      assert PublishesRound(schedule[r], r + 1, rounds[r], byes[r], idx, scores);
      var e := Sorted(rounds[r], EdgeLeq())[k];
      ScoreEntry(scores, profiles, weight, e);
      assert schedule[r].pairs[k] == SchedulePair(idx[e.a], idx[e.b], Score(scores, e));
    }
  }

  /** The generator's error for a dead end, naming the stranded participant. */
  function Describe(stop: DeadEnd, idx: seq<Pid>): MatchingError {
    match stop
    case AllSatOutOnce(round) => EverybodySatOut(round)
    case StrandedInRound(round, _, failed, nodes) => Unrecoverable(round, if 0 <= failed < |idx| then idx[failed] else "", nodes)
  }

  /** Participants by rank. */
  function Ranked(parse: UuidParse, input: MatchInput): seq<Pid> {
    Sorted(Pids(input.participants), UuidLeq(parse))
  }

  /** The match scores of an input by rank. */
  ghost predicate ScoresFor(parse: UuidParse, input: MatchInput, scores: Scores) {
    var idx, profileOf := Ranked(parse, input), ProfileMap(input.participants);
    && |idx| == |input.participants| && (forall i :: 0 <= i < |idx| ==> idx[i] in profileOf)
    && ScoresOf(scores, ProfilesOf(idx, profileOf), input.weight)
  }

  function ProfilesOf(idx: seq<Pid>, profileOf: map<Pid, Profile>): (profiles: seq<Profile>)
    requires forall i :: 0 <= i < |idx| ==> idx[i] in profileOf
    ensures |profiles| == |idx| && forall i :: 0 <= i < |idx| ==> profiles[i] == profileOf[idx[i]]
  {
    seq(|idx|, i requires 0 <= i < |idx| => profileOf[idx[i]])
  }

  /** How a schedule comes about: rounds built one after another, improved one after another, published. */
  ghost predicate Arises(idx: seq<Pid>, numRounds: int, scores: Scores, schedule: Schedule) {
    exists start: Rounds, byes: Byes, f: Forbidden, rounds: Rounds ::
      |start| == numRounds && BuiltUp(|idx|, scores, start, byes, f)
      && EachImproved(rounds, start, |start|, scores) && Publishes(schedule, rounds, byes, idx, scores)
  }

  ghost predicate BuiltUp(n: nat, scores: Scores, rounds: Rounds, byes: Byes, f: Forbidden) {
    History(n, rounds, byes, f) && AllFollow(n, rounds, byes, scores)
  }

  /**
   What a failure after the up-front checks can mean: the search ran out of nodes, or the very
   rounds that the engine built from these scores leave no further round.
   */
  ghost predicate ExplainsFailure(error: MatchingError, n: nat, numRounds: int, scores: Scores) {
    && error.Unrecoverable?
    && 1 <= error.round <= numRounds
    && error.nodes <= Tree(2 * (n / 2))
    && (error.nodes > MAX_RECOVERY_NODES || BlockedAt(n, scores, error.round - 1))
    && (numRounds <= n / 2 ==> error.nodes > MAX_RECOVERY_NODES)
  }

  /** The error names the round and somebody whom the greedy pass strands after the engine's own rounds before it. */
  ghost predicate NamesStranded(error: MatchingError, idx: seq<Pid>, scores: Scores) {
    error.Unrecoverable? &&
    exists rounds, byes, bye, f, p ::
      |rounds| == error.round - 1 && StrandsAfter(|idx|, scores, rounds, byes, bye, f, p) && 0 <= p < |idx| && idx[p] == error.pid
  }

  ghost predicate StrandsAfter(n: nat, scores: Scores, rounds: Rounds, byes: Byes, bye: Option<int>, f: Forbidden, p: int) {
    var w := Working(n, bye);
    && BuiltUp(n, scores, rounds, byes, f) && NextBye(n, byes, bye, f)
    && InRange(w, n) && Square(n, scores) && Strands(p, w, f, scores)
  }

  /** Everything that is promised about the generator's answer. */
  ghost predicate Answer(parse: UuidParse, input: MatchInput, res: Result<Schedule, MatchingError>) {
    if UpfrontError(parse, input).Some? then res == Failure(UpfrontError(parse, input).value)
    else exists scores :: ScoresFor(parse, input, scores) && AnswerFor(parse, input, scores, res)
  }

  ghost predicate AnswerFor(parse: UuidParse, input: MatchInput, scores: Scores, res: Result<Schedule, MatchingError>) {
    match res
    case Success(schedule) =>
      Delivers(parse, input, schedule) && Arises(Ranked(parse, input), input.numRounds, scores, schedule)
    case Failure(error) =>
      && ExplainsFailure(error, |input.participants|, input.numRounds, scores)
      && NamesStranded(error, Ranked(parse, input), scores)
  }

  ghost predicate Delivers(parse: UuidParse, input: MatchInput, schedule: Schedule) {
    && Sound(schedule, PidSet(input.participants), input.numRounds)
    && AllScored(schedule, ProfileMap(input.participants), input.weight)
    && AllAscend(parse, schedule)
  }

  lemma NamesForInput(parse: UuidParse, participants: seq<Participant>, idx: seq<Pid>)
    requires RanksOf(idx, parse, Pids(participants))
    ensures NamesFor(idx, PidSet(participants))
    ensures forall i :: 0 <= i < |idx| ==> idx[i] in ProfileMap(participants)
  {
    hide ProfileMap, UuidOf;
    var pids := Pids(participants);
    ProfileMapKeys(participants);
    forall x ensures x in PidSet(participants) <==> x in idx {
      assert x in idx <==> x in multiset(idx);
      assert x in pids <==> x in multiset(pids);
      if x in PidSet(participants) {
        var p :| p in participants && p.pid == x;
        var i :| 0 <= i < |participants| && participants[i] == p;
        assert pids[i] == x;
      }
    }
    assert forall i :: 0 <= i < |idx| ==> idx[i] in idx;
  }

  lemma StopExplained(stop: DeadEnd, idx: seq<Pid>, n: nat, numRounds: int, rounds: Rounds, byes: Byes, f: Forbidden, scores: Scores)
    requires stop.round == |rounds| + 1 <= numRounds <= MaxRounds(n) && |idx| == n
    requires BuiltUp(n, scores, rounds, byes, f)
    requires stop.AllSatOutOnce? ==> n % 2 == 1 && n <= |rounds|
    requires stop.StrandedInRound? ==>
               NextBye(n, byes, stop.bye, f) && stop.nodes <= Tree(2 * (n / 2))
               && (stop.nodes > MAX_RECOVERY_NODES || !HasPerfect(Working(n, stop.bye), f))
    ensures ExplainsFailure(Describe(stop, idx), n, numRounds, scores)
  {
    hide History, AllFollow, HasPerfect, Working, Tree, NextBye;
    if stop.StrandedInRound? && stop.nodes <= MAX_RECOVERY_NODES {
      assert StuckAfter(n, scores, rounds, byes, stop.bye, f);
      if |rounds| < n / 2 {
        EarlyExists(n, rounds, byes, f, stop.bye);
      }
    }
  }

  lemma StopNamed(stop: DeadEnd, idx: seq<Pid>, rounds: Rounds, byes: Byes, f: Forbidden, scores: Scores)
    requires stop.StrandedInRound? && stop.round == |rounds| + 1 && |f| == |idx| && Square(|idx|, scores)
    requires BuiltUp(|idx|, scores, rounds, byes, f) && NextBye(|idx|, byes, stop.bye, f)
    requires InRange(Working(|idx|, stop.bye), |idx|) && Strands(stop.failed, Working(|idx|, stop.bye), f, scores)
    ensures NamesStranded(Describe(stop, idx), idx, scores)
  {
    hide BuiltUp, NextBye, Working, InRange, Square;
    assert StrandsAfter(|idx|, scores, rounds, byes, stop.bye, f, stop.failed);
  }

  lemma EarlyExists(n: nat, rounds: Rounds, byes: Byes, f: Forbidden, bye: Option<int>)
    requires History(n, rounds, byes, f) && NextBye(n, byes, bye, f) && |rounds| < n / 2
    ensures HasPerfect(Working(n, bye), f)
  {
    hide HasPerfect, Working, ByesOk, History;
    EarlyRoundExists(n, rounds, byes, f, bye);
  }

  /**
   The generator. Refused input is refused for the first reason that applies. Otherwise the result
   keeps the scheduling promise and arises from the engine's rounds, or the repair search ran out
   of nodes, or the engine's own rounds on these scores leave no further one; for at most half as
   many rounds as participants only the nodes can be the reason.
   */
  method GenerateSchedule(parse: UuidParse, input: MatchInput) returns (res: Result<Schedule, MatchingError>)
    ensures UpfrontError(parse, input).Some? ==> res == Failure(UpfrontError(parse, input).value)
    ensures UpfrontError(parse, input).None? && res.Success? ==> Delivers(parse, input, res.value)
    ensures Answer(parse, input, res)
  {
    var pids := Pids(input.participants);
    var n, numRounds := |pids|, input.numRounds;
    if numRounds < 1 {
      return Failure(NumRoundsTooSmall);
    }
    if !Distinct(pids) {
      return Failure(DuplicateIds);
    }
    if exists x :: x in pids && !Parses(parse, x) {
      return Failure(InvalidIds);
    }
    if n < 2 {
      return Failure(TooFewParticipants(n));
    }
    if numRounds > MaxRounds(n) {
      return Failure(TooManyRounds(n, numRounds, MaxRounds(n)));
    }
    assert UpfrontError(parse, input).None?;
    ghost var scores;
    res, scores := PairUp(parse, input, pids);
  }

  method PairUp(parse: UuidParse, input: MatchInput, pids: seq<Pid>)
    returns (res: Result<Schedule, MatchingError>, ghost forScores: Scores)
    requires pids == Pids(input.participants) && Distinct(pids)
    requires 1 <= input.numRounds <= MaxRounds(|pids|)
    ensures res.Success? ==> Delivers(parse, input, res.value)
    ensures ScoresFor(parse, input, forScores) && AnswerFor(parse, input, forScores, res)
  {
    hide Sorted, ProfileMap, ScoresOf, AllRanked, Sound, AllScored, AllAscend, ExplainsFailure, Publishes, History, AllFollow;
    hide Mutual, Tracks, Bounded, AllRounds, DisjointRounds, PidSet, NoRoundWorse, Describe, EachImproved, NextBye, HasPerfect, Working, Tree, Strands, NamesStranded;
    RankByUuid(parse, pids);
    var idx := Ranked(parse, input);
    var n := |idx|;
    NamesForInput(parse, input.participants, idx);
    var profileOf := ProfileMap(input.participants);
    var profiles := ProfilesOf(idx, profileOf);
    var scores := BuildScores(profiles, input.weight);
    forScores := scores;
    ScoresSquare(scores, profiles, input.weight);
    var ranked := RankPartners(n, scores);
    var builder := new RoundBuilder(n, scores, ranked);
    var rounds, byes, stop := builder.BuildRounds(input.numRounds);
    if stop.Some? {
      StopExplained(stop.value, idx, n, input.numRounds, rounds, byes, builder.forbidden, scores);
      if stop.value.StrandedInRound? {
        StopNamed(stop.value, idx, rounds, byes, builder.forbidden, scores);
      }
      return Failure(Describe(stop.value, idx)), scores;
    }
    HistoryParts(n, rounds, byes, builder.forbidden);
    var improved := ImproveAll(n, rounds, byes, scores);
    SameLength(improved, rounds, byes, scores, n);
    ByesInRange(n, byes);
    var schedule := Publish(improved, byes, idx, scores);
    PublishedIsSound(schedule, improved, byes, idx, scores, PidSet(input.participants));
    PublishedPairsGood(parse, schedule, improved, byes, idx, scores, profiles, profileOf, input.weight);
    assert BuiltUp(n, scores, rounds, byes, builder.forbidden);
    assert Arises(idx, input.numRounds, scores, schedule);
    return Success(schedule), scores;
  }

  lemma HistoryParts(n: nat, rounds: Rounds, byes: Byes, f: Forbidden)
    requires History(n, rounds, byes, f)
    ensures AllRounds(n, rounds, byes) && NoRepeats(rounds) && ByesOk(n, byes)
  {
  }

  lemma ScoresSquare(scores: Scores, profiles: seq<Profile>, weight: Weight)
    requires ScoresOf(scores, profiles, weight)
    ensures Square(|profiles|, scores)
  {
  }

  lemma SameLength(rounds: Rounds, start: Rounds, byes: Byes, scores: Scores, n: nat)
    requires NoRoundWorse(rounds, start, scores) && AllRounds(n, rounds, byes)
    ensures |rounds| == |start| == |byes|
  {
  }

  lemma ByesInRange(n: nat, byes: Byes)
    requires ByesOk(n, byes)
    ensures forall r :: 0 <= r < |byes| ==> ByeInRange(byes[r], n)
  {
  }

  // ----- generating, checking and locking a schedule

  datatype LockError = GenerationFailed(error: MatchingError) | ViolationsFound(violations: Violations)

  /** What becomes of a generated schedule: it is locked exactly if the checker reports nothing. */
  ghost predicate Locks(parse: UuidParse, input: MatchInput, generated: Result<Schedule, MatchingError>, res: Result<Schedule, LockError>) {
    match generated
    case Failure(error) => res == Failure(GenerationFailed(error))
    case Success(schedule) =>
      var violations := Report(parse, schedule, PidSet(input.participants), input.numRounds);
      res == if violations == [] then Success(schedule) else Failure(ViolationsFound(violations))
  }

  /**
   Generate and check as the recalculation before an event does. With ids of different UUIDs the
   check never blocks: the only way to fail is that generation itself fails.
   */
  method GenerateAndCheck(parse: UuidParse, input: MatchInput) returns (res: Result<Schedule, LockError>)
    ensures res.Success? ==> UpfrontError(parse, input).None?
    ensures res.Success? ==> Valid(parse, res.value, PidSet(input.participants), input.numRounds)
    ensures res.Failure? && res.error.ViolationsFound? ==> !DifferentUuids(parse, PidSet(input.participants))
    ensures exists generated :: Answer(parse, input, generated) && Locks(parse, input, generated, res)
  {
    hide Report, Clean, Sound, AllScored, AllAscend, AllPresentable, DifferentUuids, PidSet, Answer;
    var generated := GenerateSchedule(parse, input);
    if generated.Failure? {
      assert Locks(parse, input, generated, Failure(GenerationFailed(generated.error)));
      return Failure(GenerationFailed(generated.error));
    }
    var schedule, pids := generated.value, PidSet(input.participants);
    var violations := Validate(parse, schedule, pids, input.numRounds);
    assert UpfrontError(parse, input).None?;
    ReadableInput(parse, input);
    GeneratedPasses(parse, schedule, pids, input.numRounds, ProfileMap(input.participants), input.weight);
    CleanMeansValid(parse, schedule, pids, input.numRounds);
    if violations != [] {
      return Failure(ViolationsFound(violations));
    }
    return Success(schedule);
  }

  lemma ReadableInput(parse: UuidParse, input: MatchInput)
    requires UpfrontError(parse, input).None?
    ensures Readable(parse, PidSet(input.participants))
  {
    var pids := Pids(input.participants);
    forall x | x in PidSet(input.participants) ensures Parses(parse, x) {
      var p :| p in input.participants && p.pid == x;
      var i :| 0 <= i < |pids| && input.participants[i] == p;
      assert pids[i] == x;
      assert x in pids;
    }
  }
}

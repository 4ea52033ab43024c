/**
 What small inputs can rely on: up to eleven participants the search never runs out of nodes, up to
 four every possible number of rounds succeeds; and what that means for two spellings of one UUID.
 */
module SmallInputs {
  import opened Wrappers
  import opened Sets
  import opened Graph
  import opened Ranking
  import opened Recovery
  import opened RoundHistory
  import opened RoundBuilding
  import opened ScheduleTypes
  import opened Validation
  import opened ScheduleMeaning
  import opened Scoring
  import opened Matching

  // ----- up to eleven participants

  /** Up to eleven participants the search never runs out of nodes: a failure is a real dead end. */
  lemma SmallInputsFailForAReason(error: MatchingError, n: nat, numRounds: int, scores: Scores)
    requires n <= 11 && ExplainsFailure(error, n, numRounds, scores)
    ensures BlockedAt(n, scores, error.round - 1) && numRounds > n / 2
  {
    hide BlockedAt;
    SmallTrees(2 * (n / 2));
  }

  /** So up to eleven participants half as many rounds always succeed. */
  lemma SmallInputsSucceed(parse: UuidParse, input: MatchInput, res: Result<Schedule, MatchingError>)
    requires UpfrontError(parse, input).None? && Answer(parse, input, res)
    requires |input.participants| <= 11 && input.numRounds <= |input.participants| / 2
    ensures res.Success? && Delivers(parse, input, res.value)
  {
    hide ScoresFor, Delivers, Arises, BlockedAt, NamesStranded;
    var scores :| ScoresFor(parse, input, scores) && AnswerFor(parse, input, scores, res);
    if res.Failure? {
      SmallInputsFailForAReason(res.error, |input.participants|, input.numRounds, scores);
    }
  }

  // ----- up to four participants

  lemma WorkingIs(n: nat, bye: Option<int>, x: int)
    ensures x in Working(n, bye) <==> 0 <= x < n && bye != Some(x)
  {
    assert x in Range(n) <==> Within(x, n);
  }

  /** When two of three meet, the third sits out. */
  lemma ThirdSitsOut(ps: seq<Edge>, bye: Option<int>, x: int, y: int)
    requires IsRound(ps, Working(3, bye)) && bye.Some? && 0 <= bye.value < 3
    requires 0 <= x < y < 3 && Met(ps, x, y)
    ensures bye.value == 3 - x - y
  {
    hide Working;
    var k :| 0 <= k < |ps| && Joins(ps[k], x, y);
    EndOf(ps, k, x);
    EndOf(ps, k, y);
    WorkingIs(3, bye, x);
    WorkingIs(3, bye, y);
  }

  /** Of three, the two who do not sit out have not met yet. */
  lemma ThirdPairIsNew(rounds: Rounds, byes: Byes, f: Forbidden, bye: Option<int>, x: int, y: int)
    requires History(3, rounds, byes, f) && NextBye(3, byes, bye, f)
    requires 0 <= x < y < 3 && bye == Some(3 - x - y)
    ensures Allowed(f, x, y)
  {
    hide Bounded, Mutual, NoRepeats, Working, Met, IsRound;
    forall r | 0 <= r < |rounds| ensures !Met(rounds[r], x, y) {
      assert IsRound(rounds[r], Working(3, byes[r]));
      assert byes[r] in byes;
      if Met(rounds[r], x, y) {
        ThirdSitsOut(rounds[r], byes[r], x, y);
      }
    }
    assert !MetBefore(rounds, x, y);
  }

  lemma ThreeNeverStuck(rounds: Rounds, byes: Byes, f: Forbidden, bye: Option<int>)
    requires History(3, rounds, byes, f) && NextBye(3, byes, bye, f)
    ensures HasPerfect(Working(3, bye), f)
  {
    ByeIsSomebody(3, byes, bye, f);
    var b := bye.value;
    var x, y := if b == 0 then 1 else 0, if b == 2 then 1 else 2;
    ThirdPairIsNew(rounds, byes, f, bye, x, y);
    hide History, NextBye;
    PairIsPerfect(Working(3, bye), f, x, y) by {
      forall z ensures z in Working(3, bye) <==> z in {x, y} { WorkingIs(3, bye, z); }
    }
  }

  lemma ByeIsSomebody(n: nat, byes: Byes, bye: Option<int>, f: Forbidden)
    requires NextBye(n, byes, bye, f) && n % 2 == 1
    ensures bye.Some? && 0 <= bye.value < n
  {
  }

  lemma PairIsPerfect(w: set<int>, f: Forbidden, x: int, y: int)
    requires w == {x, y} && x < y && Allowed(f, x, y)
    ensures HasPerfect(w, f)
  {
    var ps := [Edge(x, y)];
    assert Ends(ps) == w by { assert ps[..0] == []; }
    assert PerfectOn(ps, w) && Avoids(ps, f);
  }

  lemma TwoPairsPerfect(w: set<int>, f: Forbidden, e: Edge, g: Edge)
    requires w == {e.a, e.b, g.a, g.b} && Apart(e, g) && Allowed(f, e.a, e.b) && Allowed(f, g.a, g.b)
    ensures HasPerfect(w, f)
  {
    var ps := [e, g];
    assert ps[..1] == [e];
    EndsOfOne(e);
    assert Ends(ps) == Ends([e]) + {g.a, g.b};
    assert Ends(ps) == w;
    hide Ends;
    assert PerfectOn(ps, w) && Avoids(ps, f);
  }

  /** If two of four have met, the other two met in the same round. */
  lemma OthersMetToo(rounds: Rounds, byes: Byes, f: Forbidden, q: int, r: int, s: int)
    requires History(4, rounds, byes, f) && {0, q, r, s} == {0, 1, 2, 3} && r != s && q != 0 && q != r && q != s && r != 0 && s != 0
    requires s in f[r] && 0 < r < 4 && 0 < q < 4
    ensures q in f[0]
  {
    hide Bounded, Mutual, NoRepeats, Working, IsMatching;
    assert MetBefore(rounds, r, s);
    var t :| 0 <= t < |rounds| && Met(rounds[t], r, s);
    var ps := rounds[t];
    assert IsRound(ps, Working(4, byes[t]));
    WorkingIs(4, byes[t], 0);
    EndsMember(ps, 0);
    var k :| 0 <= k < |ps| && Touches(ps[k], 0);
    var l :| 0 <= l < |ps| && Joins(ps[l], r, s);
    PairsAreApart(ps, k, l);
    EndOf(ps, k, ps[k].a);
    EndOf(ps, k, ps[k].b);
    WorkingIs(4, byes[t], ps[k].a);
    WorkingIs(4, byes[t], ps[k].b);
    assert Joins(ps[k], 0, q);
    assert Met(ps, 0, q);
    assert MetBefore(rounds, 0, q);
  }

  lemma PairsAreApart(ps: seq<Edge>, k: int, l: int)
    requires IsMatching(ps) && 0 <= k < |ps| && 0 <= l < |ps|
    ensures ps[k].a != ps[k].b && (k != l ==> Apart(ps[k], ps[l]))
  {
    assert k < l ==> Apart(ps[k], ps[l]);
    assert l < k ==> Apart(ps[l], ps[k]);
  }

  lemma FourNeverStuck(rounds: Rounds, byes: Byes, f: Forbidden)
    requires History(4, rounds, byes, f) && |rounds| <= 2
    ensures HasPerfect(Working(4, None), f)
  {
    FirstHasSomebody(rounds, byes, f);
    var q :| 1 <= q <= 3 && q !in f[0];
    var r, s := if q == 1 then 2 else 1, if q == 3 then 2 else 3;
    HistoryIsMutual(rounds, byes, f);
    if s in f[r] {
      OthersMetToo(rounds, byes, f, q, r, s);
    }
    hide History;
    forall z ensures z in Working(4, None) <==> z in {0, q, r, s} { WorkingIs(4, None, z); }
    TwoPairsPerfect(Working(4, None), f, Edge(0, q), Edge(r, s));
  }

  lemma HistoryIsMutual(rounds: Rounds, byes: Byes, f: Forbidden)
    requires History(4, rounds, byes, f)
    ensures |f| == 4
  {
  }

  lemma FirstHasSomebody(rounds: Rounds, byes: Byes, f: Forbidden)
    requires History(4, rounds, byes, f) && |rounds| <= 2
    ensures |f| == 4 && exists q :: 1 <= q <= 3 && q !in f[0]
  {
    hide Tracks, AllRounds, NoRepeats, ByesOk, Mutual;
    TwoOfThree(f[0]);
  }

  lemma TwoOfThree(s: set<int>)
    requires |s| <= 2
    ensures exists q :: 1 <= q <= 3 && q !in s
  {
    assert |{1, 2, 3}| == 3;
    if {1, 2, 3} <= s {
      SubsetCard({1, 2, 3}, s);
      assert false;
    }
    assert 1 !in s || 2 !in s || 3 !in s;
  }

  lemma UpToFourNeverStuck(n: nat, scores: Scores, rounds: Rounds, byes: Byes, bye: Option<int>, f: Forbidden)
    requires 2 <= n <= 4 && |rounds| < MaxRounds(n)
    ensures !StuckAfter(n, scores, rounds, byes, bye, f)
  {
    hide History, AllFollow, HasPerfect, Working;
    if StuckAfter(n, scores, rounds, byes, bye, f) {
      if n == 2 {
        EarlyExists(2, rounds, byes, f, bye);
      } else if n == 3 {
        ThreeNeverStuck(rounds, byes, f, bye);
      } else {
        FourNeverStuck(rounds, byes, f);
      }
    }
  }

  /** Two, three or four participants always get every number of rounds that is possible at all. */
  lemma UpToFourAlwaysSucceed(parse: UuidParse, input: MatchInput, res: Result<Schedule, MatchingError>)
    requires UpfrontError(parse, input).None? && Answer(parse, input, res) && |input.participants| <= 4
    ensures res.Success? && Delivers(parse, input, res.value)
  {
    hide ScoresFor, Delivers, Arises, StuckAfter, NamesStranded, BuiltUp;
    var n := |input.participants|;
    var scores :| ScoresFor(parse, input, scores) && AnswerFor(parse, input, scores, res);
    if res.Failure? {
      SmallInputsFailForAReason(res.error, n, input.numRounds, scores);
      var rounds, byes, bye, f :| |rounds| == res.error.round - 1 && StuckAfter(n, scores, rounds, byes, bye, f);
      UpToFourNeverStuck(n, scores, rounds, byes, bye, f);
    }
  }

  // ----- two spellings of one UUID

  lemma PidSetIs(participants: seq<Participant>, x: Pid)
    ensures x in PidSet(participants) <==> x in Pids(participants)
  {
    var pids := Pids(participants);
    if x in PidSet(participants) {
      var p :| p in participants && p.pid == x;
      var i :| 0 <= i < |participants| && participants[i] == p;
      assert pids[i] == x;
    }
  }

  lemma PidSetSize(participants: seq<Participant>)
    requires Distinct(Pids(participants))
    ensures |PidSet(participants)| == |participants|
  {
    hide PidSet;
    SeqSetSize(Pids(participants));
    forall x ensures x in PidSet(participants) <==> x in (set y | y in Pids(participants)) {
      PidSetIs(participants, x);
    }
    assert PidSet(participants) == set y | y in Pids(participants);
  }

  lemma {:induction false} SeqSetSize(xs: seq<Pid>)
    requires Distinct(xs)
    ensures |set y | y in xs| == |xs|
  {
    if xs == [] {
      assert (set y | y in xs) == {};
    } else {
      var rest, last := xs[..|xs| - 1], xs[|xs| - 1];
      SeqSetSize(rest);
      assert (set y | y in xs) == (set y | y in rest) + {last};
      assert last !in rest;
    }
  }

  /**
   A returned schedule with all possible rounds passes the checker if and only if the ids that
   were handed in stand for different UUIDs.
   */
  lemma FullAnswerPassesIff(parse: UuidParse, input: MatchInput, schedule: Schedule)
    requires UpfrontError(parse, input).None? && input.numRounds == MaxRounds(|input.participants|)
    requires Answer(parse, input, Success(schedule))
    ensures Report(parse, schedule, PidSet(input.participants), input.numRounds) == []
            <==> DifferentUuids(parse, PidSet(input.participants))
  {
    hide Report, AllScored, AllAscend, Sound, ScoresFor, Arises, DifferentUuids, PidSet;
    ReadableInput(parse, input);
    PidSetSize(input.participants);
    FullSchedulePassesIff(parse, schedule, PidSet(input.participants), ProfileMap(input.participants), input.weight);
  }

  /**
   Two participants whose ids are two spellings of one UUID: the ids are different strings, so
   the input is accepted; a schedule is always returned; and the checker always rejects it.
   */
  lemma SameUuidRejected(parse: UuidParse, a: Participant, b: Participant, weight: Weight, res: Result<Schedule, MatchingError>)
    requires a.pid != b.pid && parse(a.pid).Some? && parse(a.pid) == parse(b.pid)
    requires Answer(parse, MatchInput([a, b], 1, weight), res)
    ensures UpfrontError(parse, MatchInput([a, b], 1, weight)).None?
    ensures res.Success? && Report(parse, res.value, {a.pid, b.pid}, 1) != []
  {
    hide Report, Answer, Delivers;
    var input := MatchInput([a, b], 1, weight);
    assert Pids(input.participants) == [a.pid, b.pid];
    assert UpfrontError(parse, input).None?;
    UpToFourAlwaysSucceed(parse, input, res);
    FullAnswerPassesIff(parse, input, res.value);
    forall x ensures x in PidSet(input.participants) <==> x in {a.pid, b.pid} {
      PidSetIs(input.participants, x);
    }
    assert PidSet(input.participants) == {a.pid, b.pid};
  }
}

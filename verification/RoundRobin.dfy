/**
 The up-front bound on the number of rounds is exact: the circle method plays N - 1 rounds among an
 even and N rounds among an odd number N of people in which everybody meets everybody.
 */
module RoundRobin {
  import opened Wrappers
  import opened Sets
  import opened Sorting
  import opened Graph
  import opened Greedy
  import opened RoundHistory
  import opened Improvement
  import opened ScheduleTypes
  import opened ScheduleMeaning
  import opened Publication
  import opened Matching

  // ----- one round on a circle of m = 2h + 1 people

  /** k places to the right of r on a circle of m, and k places to the left. */
  function Right(r: int, k: int, m: int): int {
    if r + k < m then r + k else r + k - m
  }

  function Turn(r: int, k: int, m: int): int {
    if r >= k then r - k else r - k + m
  }

  /** Round r: the neighbours on both sides of r at each distance from 1 to h. */
  function Circle(h: nat, r: int): (ps: seq<Edge>)
    ensures |ps| == h
    ensures forall i :: 0 <= i < h ==> ps[i] == Canon(Right(r, i + 1, 2 * h + 1), Turn(r, i + 1, 2 * h + 1))
  {
    seq(h, i requires 0 <= i < h => Canon(Right(r, i + 1, 2 * h + 1), Turn(r, i + 1, 2 * h + 1)))
  }

  lemma CircleIsMatching(h: nat, r: int)
    requires 0 <= r < 2 * h + 1
    ensures IsMatching(Circle(h, r)) && Ascending(Circle(h, r))
  {
  }

  lemma CircleReaches(h: nat, r: int, x: int)
    requires 0 <= r < 2 * h + 1
    ensures x in Ends(Circle(h, r)) <==> 0 <= x < 2 * h + 1 && x != r
  {
    var m, ps := 2 * h + 1, Circle(h, r);
    EndsMember(ps, x);
    if 0 <= x < m && x != r {
      var d := if x > r then x - r else x - r + m;
      if d <= h {
        assert Touches(ps[d - 1], x);
      } else {
        assert Touches(ps[m - d - 1], x);
      }
    }
  }

  /** Whoever meets in round r, the sum of the two places tells the round. */
  lemma CircleMet(h: nat, r: int, i: int, j: int)
    requires 0 <= r < 2 * h + 1 && Met(Circle(h, r), i, j)
    ensures 0 <= i < 2 * h + 1 && 0 <= j < 2 * h + 1
    ensures i + j == 2 * r || i + j == 2 * r - (2 * h + 1) || i + j == 2 * r + (2 * h + 1)
  {
  }

  // ----- all rounds of n people

  function RoundOf(n: nat, r: int): seq<Edge>
    requires n >= 1
  {
    if n % 2 == 1 then Circle(n / 2, r) else Circle(n / 2 - 1, r) + [Edge(r, n - 1)]
  }

  function ByeOf(n: nat, r: int): Option<int> {
    if n % 2 == 1 then Some(r) else None
  }

  function AllRoundsOf(n: nat, k: nat): (rounds: Rounds)
    requires n >= 1
    ensures |rounds| == k && forall r :: 0 <= r < k ==> rounds[r] == RoundOf(n, r)
  {
    seq(k, r requires 0 <= r < k => RoundOf(n, r))
  }

  function AllByesOf(n: nat, k: nat): (byes: Byes)
    ensures |byes| == k && forall r :: 0 <= r < k ==> byes[r] == ByeOf(n, r)
  {
    seq(k, r requires 0 <= r < k => ByeOf(n, r))
  }

  lemma OddRound(n: nat, r: int)
    requires n % 2 == 1 && 0 <= r < n
    ensures IsRound(RoundOf(n, r), Working(n, ByeOf(n, r)))
  {
    CircleIsMatching(n / 2, r);
    forall x ensures x in Ends(RoundOf(n, r)) <==> x in Working(n, ByeOf(n, r)) {
      CircleReaches(n / 2, r, x);
      assert x in Range(n) <==> Within(x, n);
    }
    hide Circle;
  }

  lemma EvenRound(n: nat, r: int)
    requires n >= 2 && n % 2 == 0 && 0 <= r < n - 1
    ensures IsRound(RoundOf(n, r), Working(n, ByeOf(n, r)))
  {
    var h := n / 2 - 1;
    var ps := Circle(h, r);
    CircleIsMatching(h, r);
    CircleReaches(h, r, r);
    CircleReaches(h, r, n - 1);
    hide Circle, Ends, IsMatching;
    AddEdge(ps, Edge(r, n - 1));
    forall x ensures x in Ends(ps) + {r, n - 1} <==> x in Range(n) {
      CircleReaches(h, r, x);
      assert x in Range(n) <==> Within(x, n);
    }
  }

  lemma NobodyTwice(n: nat, r: int, s: int, i: int, j: int)
    requires n >= 2 && 0 <= r < s < MaxRounds(n) && Met(RoundOf(n, r), i, j)
    ensures !Met(RoundOf(n, s), i, j)
  {
    hide Circle, Met;
    if Met(RoundOf(n, s), i, j) {
      if n % 2 == 1 {
        CircleMet(n / 2, r, i, j);
        CircleMet(n / 2, s, i, j);
      } else {
        EvenMet(n, r, i, j);
        EvenMet(n, s, i, j);
      }
    }
  }

  /** In an even round two people meet on the circle, or the one at r meets the one beside it. */
  lemma EvenMet(n: nat, r: int, i: int, j: int)
    requires n >= 2 && n % 2 == 0 && 0 <= r < n - 1 && Met(RoundOf(n, r), i, j)
    ensures (i == n - 1 && j == r) || (j == n - 1 && i == r) ||
            (0 <= i < n - 1 && 0 <= j < n - 1
             && (i + j == 2 * r || i + j == 2 * r - (n - 1) || i + j == 2 * r + (n - 1)))
  {
    var ps := Circle(n / 2 - 1, r);
    hide Circle;
    var all := ps + [Edge(r, n - 1)];
    var k :| 0 <= k < |all| && Joins(all[k], i, j);
    if k < |ps| {
      assert Joins(ps[k], i, j);
      assert Met(ps, i, j);
      CircleMet(n / 2 - 1, r, i, j);
    }
  }

  lemma RoundsAreGood(n: nat, k: nat)
    requires n >= 2 && k <= MaxRounds(n)
    ensures AllRounds(n, AllRoundsOf(n, k), AllByesOf(n, k)) && NoRepeats(AllRoundsOf(n, k)) && ByesOk(n, AllByesOf(n, k))
  {
    hide RoundOf, Working, IsRound, Met;
    var rounds := AllRoundsOf(n, k);
    forall r | 0 <= r < k ensures IsRound(rounds[r], Working(n, AllByesOf(n, k)[r])) {
      if n % 2 == 1 { OddRound(n, r); } else { EvenRound(n, r); }
    }
    forall r, s, l | 0 <= r < s < |rounds| && 0 <= l < |rounds[s]| ensures !Met(rounds[r], rounds[s][l].a, rounds[s][l].b) {
      MetSelf(rounds[s], l);
      if Met(rounds[r], rounds[s][l].a, rounds[s][l].b) {
        NobodyTwice(n, r, s, rounds[s][l].a, rounds[s][l].b);
      }
    }
  }

  lemma MetSelf(ps: seq<Edge>, l: int)
    requires 0 <= l < |ps|
    ensures Met(ps, ps[l].a, ps[l].b)
  {
    assert Joins(ps[l], ps[l].a, ps[l].b);
  }

  // ----- the schedule

  /** The round-robin rounds published under the ids, with scores of zero. */
  lemma {:induction false} PublishedRounds(idx: seq<Pid>, rounds: Rounds, byes: Byes) returns (schedule: Schedule)
    requires AllRounds(|idx|, rounds, byes) && ByesOk(|idx|, byes)
    ensures Publishes(schedule, rounds, byes, idx, [])
    decreases |rounds|
  {
    hide IsRound, EdgesBelow, PublishRound, Sorted, Working;
    if rounds == [] {
      schedule := [];
    } else {
      var n := |rounds| - 1;
      var front := PublishedRounds(idx, rounds[..n], byes[..n]);
      assert IsRound(rounds[n], Working(|idx|, byes[n]));
      SortedIsRound(rounds[n], Working(|idx|, byes[n]));
      RoundEdgesBelow(Sorted(rounds[n], EdgeLeq()), |idx|, byes[n]);
      var last := PublishRound(n + 1, Sorted(rounds[n], EdgeLeq()), byes[n], idx, []);
      assert PublishesRound(last, n + 1, rounds[n], byes[n], idx, []);
      schedule := front + [last];
    }
  }

  ghost predicate UuidAscending(parse: UuidParse, idx: seq<Pid>) {
    (forall i :: 0 <= i < |idx| ==> Parses(parse, idx[i]))
    && (forall i, j :: 0 <= i < j < |idx| ==> Below(parse, idx[i], idx[j]))
  }

  lemma PublishedAscend(parse: UuidParse, schedule: Schedule, rounds: Rounds, byes: Byes, idx: seq<Pid>)
    requires Publishes(schedule, rounds, byes, idx, []) && UuidAscending(parse, idx)
    ensures AllPresentable(parse, schedule)
  {
    hide Sorted;
    forall r | 0 <= r < |schedule| ensures Presentable(parse, schedule[r]) {
      assert PublishesRound(schedule[r], r + 1, rounds[r], byes[r], idx, []);
    }
  }

  lemma AscendingIsDistinct(parse: UuidParse, idx: seq<Pid>)
    requires UuidAscending(parse, idx)
    ensures Distinct(idx)
  {
    forall i, j | 0 <= i < j < |idx| ensures idx[i] != idx[j] {
      assert Below(parse, idx[i], idx[j]);
    }
  }

  /** A valid schedule for every number of rounds up to the bound. */
  lemma RoundRobinIsValid(parse: UuidParse, idx: seq<Pid>, numRounds: nat, pids: set<Pid>) returns (schedule: Schedule)
    requires UuidAscending(parse, idx) && |idx| >= 2 && numRounds <= MaxRounds(|idx|)
    requires forall x :: x in pids <==> x in idx
    ensures Valid(parse, schedule, pids, numRounds)
  {
    hide UuidAscending, Publishes, AllRounds, ByesOk, Sound, AllPresentable;
    var n := |idx|;
    AscendingIsDistinct(parse, idx);
    RoundsAreGood(n, numRounds);
    var rounds, byes := AllRoundsOf(n, numRounds), AllByesOf(n, numRounds);
    DisjointFromNoRepeats(rounds);
    schedule := PublishedRounds(idx, rounds, byes);
    PublishedIsSound(schedule, rounds, byes, idx, [], pids);
    PublishedAscend(parse, schedule, rounds, byes, idx);
  }

  lemma SetOfIds(idx: seq<Pid>, pids: set<Pid>)
    requires Distinct(idx) && forall x :: x in pids <==> x in idx
    ensures |pids| == |idx|
  {
    DistinctSeqFits(idx, pids);
    SeqCovers(idx, pids);
  }

  lemma {:induction false} SeqCovers(idx: seq<Pid>, pids: set<Pid>)
    requires forall x :: x in pids ==> x in idx
    ensures |pids| <= |idx|
  {
    if idx == [] {
      assert pids == {};
    } else {
      var n := |idx| - 1;
      SeqCovers(idx[..n], pids - {idx[n]});
    }
  }

  /**
   The up-front bound is exact in both directions: for at least two people with different UUIDs, a
   valid schedule of R rounds exists if and only if R lies between 0 and the bound.
   */
  lemma PossibleIff(parse: UuidParse, idx: seq<Pid>, numRounds: int, pids: set<Pid>)
    requires UuidAscending(parse, idx) && |idx| >= 2 && forall x :: x in pids <==> x in idx
    ensures (exists schedule :: Valid(parse, schedule, pids, numRounds)) <==> 0 <= numRounds <= MaxRounds(|idx|)
  {
    hide UuidAscending, Sound, AllPresentable;
    AscendingIsDistinct(parse, idx);
    SetOfIds(idx, pids);
    if schedule :| Valid(parse, schedule, pids, numRounds) {
      RoundBound(schedule, pids, numRounds);
      SoundLength(schedule, pids, numRounds);
    }
    if 0 <= numRounds <= MaxRounds(|idx|) {
      var schedule := RoundRobinIsValid(parse, idx, numRounds, pids);
    }
  }

  lemma SoundLength(schedule: Schedule, pids: set<Pid>, numRounds: int)
    requires Sound(schedule, pids, numRounds)
    ensures numRounds == |schedule|
  {
  }

  /**
   What the generator refuses for too many rounds is impossible, and what it lets through is
   possible, whatever the order of the participants and whatever the search then finds.
   */
  lemma UpfrontBoundIsExact(parse: UuidParse, input: MatchInput)
    requires input.numRounds >= 1 && |input.participants| >= 2 && Distinct(Pids(input.participants))
    requires Readable(parse, PidSet(input.participants)) && DifferentUuids(parse, PidSet(input.participants))
    ensures UpfrontError(parse, input).None? <==> exists schedule :: Valid(parse, schedule, PidSet(input.participants), input.numRounds)
  {
    hide Valid, DifferentUuids, PidSet, Sorted, UuidAscending;
    var pids := Pids(input.participants);
    RankByUuid(parse, pids);
    var idx := Ranked(parse, input);
    NamesForInput(parse, input.participants, idx);
    RanksAscend(parse, idx, PidSet(input.participants));
    PossibleIff(parse, idx, input.numRounds, PidSet(input.participants));
    forall x | x in pids ensures Parses(parse, x) {
      PidIsThere(input.participants, x);
    }
  }

  lemma PidIsThere(participants: seq<Participant>, x: Pid)
    requires x in Pids(participants)
    ensures x in PidSet(participants)
  {
    var i :| 0 <= i < |participants| && Pids(participants)[i] == x;
    assert participants[i] in participants;
  }

  lemma RanksAscend(parse: UuidParse, idx: seq<Pid>, pids: set<Pid>)
    requires NamesFor(idx, pids) && Readable(parse, pids) && DifferentUuids(parse, pids)
    requires forall i, j :: 0 <= i < j < |idx| ==> UuidOf(parse, idx[i]) <= UuidOf(parse, idx[j])
    ensures UuidAscending(parse, idx)
  {
    forall i, j | 0 <= i < j < |idx| ensures Below(parse, idx[i], idx[j]) {
      assert idx[i] in pids && idx[j] in pids && idx[i] != idx[j];
    }
  }
}

/**
 An input on which the engine itself gets stuck: six participants whose tags make everybody
 prefer the other group of three. The greedy pass plays the three rounds between the groups, and
 then no fourth round is left, although five rounds pass the up-front check.
 */
module StuckInput {
  import opened Wrappers
  import opened Sets
  import opened Graph
  import opened Ranking
  import opened Recovery
  import opened Greedy
  import opened RoundHistory
  import opened RoundBuilding

  /** Everybody scores the same positive score with the three of the other group, and zero within the own. */
  ghost predicate GroupScores(scores: Scores, s: real) {
    && s > 0.0 && Square(6, scores)
    && forall i, j :: 0 <= i < 6 && 0 <= j < 6 && i != j ==> scores[i][j] == if (i < 3) == (j < 3) then 0.0 else s
  }

  // ----- the greedy pass, pick by pick

  /** Who is picked in round r at step k, and with whom. */
  function Picked(r: int, k: int): (int, int) {
    if r == 0 then (if k == 0 then (0, 3) else if k == 1 then (1, 4) else (2, 5))
    else if r == 1 then (if k == 0 then (0, 4) else if k == 1 then (2, 3) else (1, 5))
    else (if k == 0 then (0, 5) else if k == 1 then (1, 3) else (2, 4))
  }

  /** Who is left in round r before step k. */
  function Left(r: int, k: int): set<int> {
    if k == 0 then {0, 1, 2, 3, 4, 5}
    else if k >= 3 then {}
    else if r == 0 then (if k == 1 then {1, 2, 4, 5} else {2, 5})
    else if r == 1 then (if k == 1 then {1, 2, 3, 5} else {1, 5})
    else (if k == 1 then {1, 2, 3, 4} else {2, 4})
  }

  /** Whom participant i has met before round r. */
  function MetRow(r: int, i: int): set<int> {
    if r == 0 then {}
    else if r == 1 then {if i < 3 then i + 3 else i - 3}
    else if r == 2 then
      (if i == 0 then {3, 4} else if i == 1 then {4, 5} else if i == 2 then {3, 5}
       else if i == 3 then {0, 2} else if i == 4 then {0, 1} else {1, 2})
    else if i < 3 then {3, 4, 5} else {0, 1, 2}
  }

  function MetSix(r: int): (f: Forbidden)
    ensures |f| == 6 && forall i :: 0 <= i < 6 ==> f[i] == MetRow(r, i)
  {
    seq(6, i => MetRow(r, i))
  }

  lemma LeftIsWithin(r: int, k: int)
    ensures InRange(Left(r, k), 6)
  {
  }

  /** Counting by listing. */
  lemma Listed(w: set<int>, c: int, row: set<int>, left: set<int>)
    requires forall x :: x in left <==> x in w && x != c && x !in row
    ensures |(w - {c}) - row| == |left|
  {
    var rest := (w - {c}) - row;
    forall x ensures x in rest <==> x in left {
      assert x in rest <==> x in w && x != c && x !in row;
    }
    assert rest == left;
  }

  /** How many choices somebody has at a step. */
  function Count(r: int, k: int, c: int): int {
    if k == 0 then 5 - r
    else if k >= 2 then 1
    else if r == 0 then 3
    else if r == 1 && (c == 1 || c == 3) then 3
    else 2
  }

  lemma FirstCounts(r: int, c: int)
    requires 0 <= r < 3 && 0 <= c < 6
    ensures |({0, 1, 2, 3, 4, 5} - {c}) - MetRow(r, c)| == 5 - r
  {
    var w := {0, 1, 2, 3, 4, 5} - {c};
    assert |w| == 5;
    assert |MetRow(r, c)| == r;
    assert MetRow(r, c) <= w;
    hide MetRow;
    Difference(w, MetRow(r, c));
  }

  lemma Difference(w: set<int>, row: set<int>)
    requires row <= w
    ensures |w - row| == |w| - |row|
  {
  }

  lemma SecondCountsZero(c: int)
    requires c in {1, 2, 4, 5}
    ensures |({1, 2, 4, 5} - {c}) - MetRow(0, c)| == 3
  {
    assert ({1, 2, 4, 5} - {c}) - {} == {1, 2, 4, 5} - {c};
  }

  lemma SecondCountsOne(c: int)
    requires c in {1, 2, 3, 5}
    ensures |({1, 2, 3, 5} - {c}) - MetRow(1, c)| == if c == 1 || c == 3 then 3 else 2
  {
    Listed({1, 2, 3, 5}, c, MetRow(1, c), if c == 1 then {2, 3, 5} else if c == 3 then {1, 2, 5} else {1, 3});
  }

  lemma SecondCountsTwo(c: int)
    requires c in {1, 2, 3, 4}
    ensures |({1, 2, 3, 4} - {c}) - MetRow(2, c)| == 2
  {
    Listed({1, 2, 3, 4}, c, MetRow(2, c), if c == 1 || c == 4 then {2, 3} else {1, 4});
  }

  lemma ThirdCounts(r: int, c: int)
    requires 0 <= r < 3 && c in Left(r, 2)
    ensures |(Left(r, 2) - {c}) - MetRow(r, c)| == 1
  {
    var (p, q) := Picked(r, 2);
    Listed(Left(r, 2), c, MetRow(r, c), if c == p then {q} else {p});
  }

  lemma SecondCounts(r: int, c: int)
    requires 0 <= r < 3 && c in Left(r, 1)
    ensures |(Left(r, 1) - {c}) - MetRow(r, c)| == Count(r, 1, c)
  {
    hide MetRow;
    if r == 0 { SecondCountsZero(c); } else if r == 1 { SecondCountsOne(c); } else { SecondCountsTwo(c); }
  }

  lemma ChoicesAre(r: int, k: int, c: int)
    requires 0 <= r < 3 && 0 <= k < 3 && c in Left(r, k) && 0 <= c < 6
    ensures Choices(Left(r, k), MetSix(r), c) == Count(r, k, c)
  {
    hide MetRow, Left;
    if k == 0 {
      LeftAtFirst(r);
      FirstCounts(r, c);
    } else if k == 1 {
      SecondCounts(r, c);
    } else {
      ThirdCounts(r, c);
    }
  }

  lemma LeftAtFirst(r: int)
    ensures Left(r, 0) == {0, 1, 2, 3, 4, 5}
  {
  }

  lemma PickedHasFewest(r: int, k: int, c: int)
    requires 0 <= r < 3 && 0 <= k < 3 && c in Left(r, k)
    ensures var p := Picked(r, k).0;
            p in Left(r, k) && (Count(r, k, p) < Count(r, k, c) || (Count(r, k, p) == Count(r, k, c) && p <= c))
  {
  }

  lemma PickedIsHardest(r: int, k: int)
    requires 0 <= r < 3 && 0 <= k < 3 && InRange(Left(r, k), 6)
    ensures Hardest(Picked(r, k).0, Left(r, k), MetSix(r))
  {
    PickedIsFree(r, k);
    hide Choices, MetSix, MetRow, Left, Count, Picked;
    var p := Picked(r, k).0;
    ChoicesAre(r, k, p);
    forall c | c in Left(r, k)
      ensures Choices(Left(r, k), MetSix(r), c) == Count(r, k, c)
      ensures Count(r, k, p) < Count(r, k, c) || (Count(r, k, p) == Count(r, k, c) && p <= c)
    {
      ChoicesAre(r, k, c);
      PickedHasFewest(r, k, c);
    }
  }

  lemma PickedIsFree(r: int, k: int)
    requires 0 <= r < 3 && 0 <= k < 3
    ensures var (p, q) := Picked(r, k);
            && p in Left(r, k) && q in Left(r, k) && 0 <= p < 6 && 0 <= q < 6
            && Left(r, k) - {p, q} == Left(r, k + 1) && q !in MetRow(r, p) && p != q
  {
  }

  lemma PickedIsFavourite(r: int, k: int, scores: Scores, s: real)
    requires 0 <= r < 3 && 0 <= k < 3 && GroupScores(scores, s)
    ensures var (p, q) := Picked(r, k); Favourite(q, p, Left(r, k), MetSix(r), scores[p])
  {
  }

  lemma OnlyPick(e: Edge, p: int, q: int, w: set<int>, f: Forbidden, scores: Scores)
    requires InRange(w, |f|) && Square(|f|, scores) && GreedyPick(e, w, f, scores)
    requires Hardest(p, w, f) && Favourite(q, p, w, f, scores[p])
    ensures Joins(e, p, q)
  {
    hide Choices;
  }

  lemma PickIsForced(r: int, k: int, e: Edge, scores: Scores, s: real)
    requires 0 <= r < 3 && 0 <= k < 3 && GroupScores(scores, s)
    requires InRange(Left(r, k), 6) && GreedyPick(e, Left(r, k), MetSix(r), scores)
    ensures Joins(e, Picked(r, k).0, Picked(r, k).1)
  {
    hide Hardest, Favourite, GreedyPick, MetSix, Left;
    PickedIsHardest(r, k);
    PickedIsFavourite(r, k, scores, s);
    OnlyPick(e, Picked(r, k).0, Picked(r, k).1, Left(r, k), MetSix(r), scores);
  }

  // ----- the rounds

  lemma EverybodyIsSix()
    ensures Working(6, None) == Left(0, 0) == {0, 1, 2, 3, 4, 5}
  {
    forall x ensures x in Range(6) <==> x in {0, 1, 2, 3, 4, 5} {
      assert x in Range(6) <==> Within(x, 6);
    }
  }

  ghost predicate PickedUpTo(r: int, ps: seq<Edge>, k: nat) {
    && k <= 3 && k <= |ps|
    && (forall j :: 0 <= j < k ==> Joins(ps[j], Picked(r, j).0, Picked(r, j).1))
    && Left(r, 0) - Ends(ps[..k]) == Left(r, k)
  }

  lemma NobodyLeft(e: Edge, f: Forbidden, scores: Scores)
    requires Square(|f|, scores)
    ensures !GreedyPick(e, {}, f, scores)
  {
  }

  lemma {:induction false} PicksAreForced(r: int, ps: seq<Edge>, k: nat, scores: Scores, s: real)
    requires 0 <= r < 3 && GroupScores(scores, s) && InRange(Left(r, 0), 6) && k <= |ps|
    requires GreedyPicks(ps, Left(r, 0), MetSix(r), scores)
    ensures PickedUpTo(r, ps, k)
  {
    hide GroupScores, GreedyPick, MetSix, Left, Picked, Ends;
    if k == 0 {
      NoEnds(ps, r);
    } else {
      PicksAreForced(r, ps, k - 1, scores, s);
      LeftIsWithin(r, k - 1);
      GroupIsSquare(scores, s);
      assert GreedyPick(ps[k - 1], Left(r, k - 1), MetSix(r), scores);
      if k == 4 {
        NobodyLeftAfterThree(r);
        NobodyLeft(ps[3], MetSix(r), scores);
      }
      PickIsForced(r, k - 1, ps[k - 1], scores, s);
      PickedIsFree(r, k - 1);
      OnePickMore(r, ps, k);
    }
  }

  lemma NoEnds(ps: seq<Edge>, r: int)
    ensures Left(r, 0) - Ends(ps[..0]) == Left(r, 0)
  {
    assert Ends(ps[..0]) == {};
  }

  lemma NobodyLeftAfterThree(r: int)
    ensures Left(r, 3) == {}
  {
  }

  lemma GroupIsSquare(scores: Scores, s: real)
    requires GroupScores(scores, s)
    ensures Square(6, scores)
  {
  }

  lemma OnePickMore(r: int, ps: seq<Edge>, k: nat)
    requires 0 < k <= 3 && k <= |ps| && PickedUpTo(r, ps, k - 1)
    requires var (p, q) := Picked(r, k - 1); Joins(ps[k - 1], p, q) && Left(r, k - 1) - {p, q} == Left(r, k)
    ensures PickedUpTo(r, ps, k)
  {
    hide Picked, Left;
    var (p, q) := Picked(r, k - 1);
    assert ps[..k][..k - 1] == ps[..k - 1];
    assert Ends(ps[..k]) == Ends(ps[..k - 1]) + {p, q};
  }

  /** The greedy pass of the first three rounds never gets stuck. */
  lemma GreedySucceeds(r: int, scores: Scores, s: real)
    requires 0 <= r < 3 && GroupScores(scores, s) && InRange(Left(r, 0), 6) && Square(6, scores)
    ensures !GreedyStuck(Left(r, 0), MetSix(r), scores)
  {
    hide GroupScores, GreedyPicks, MetSix, Left, Picked, Ends, Partial, Hardest, MetRow;
    if GreedyStuck(Left(r, 0), MetSix(r), scores) {
      var ps, p :| GreedyPicks(ps, Left(r, 0), MetSix(r), scores) && Partial(ps, Left(r, 0), MetSix(r))
                   && Stranded(p, Left(r, 0) - Ends(ps), MetSix(r));
      var k := |ps|;
      PicksAreForced(r, ps, k, scores, s);
      assert ps[..k] == ps;
      LeftIsWithin(r, k);
      SomebodyFree(r, k, p);
    }
  }

  lemma SomebodyFree(r: int, k: nat, p: int)
    requires 0 <= r < 3 && k <= 3 && InRange(Left(r, k), 6)
    ensures !Stranded(p, Left(r, k), MetSix(r))
  {
    hide Choices, MetSix, MetRow, Left, Picked;
    if k == 3 {
      NobodyLeftAfterThree(r);
    } else {
      PickedIsHardest(r, k);
      PickedIsFree(r, k);
      var (a, b) := Picked(r, k);
      assert Allowed(MetSix(r), a, b);
    }
  }

  /** Who meets whom in a round whose pairs were picked so. */
  lemma MetInRound(r: int, ps: seq<Edge>, i: int, j: int)
    requires 0 <= r < 3 && |ps| == 3 && PickedUpTo(r, ps, 3) && 0 <= i < 6
    ensures j in MetRow(r + 1, i) <==> j in MetRow(r, i) || Met(ps, i, j)
  {
    hide Ends, Left;
    assert Met(ps, i, j) <==> Joins(ps[0], i, j) || Joins(ps[1], i, j) || Joins(ps[2], i, j);
    hide Met;
  }

  /** The forbidden sets before round r, if the rounds so far were picked so. */
  lemma {:induction false} MetSoFar(rounds: Rounds, r: nat, f: Forbidden)
    requires r <= 3 && r <= |rounds| && |f| == 6 && Tracks(f, rounds[..r])
    requires forall q :: 0 <= q < r ==> |rounds[q]| == 3 && PickedUpTo(q, rounds[q], 3)
    ensures f == MetSix(r)
  {
    hide PickedUpTo;
    forall i | 0 <= i < 6 ensures f[i] == MetRow(r, i) {
      forall j ensures j in f[i] <==> j in MetRow(r, i) {
        MetBeforeIs(rounds, r, i, j);
      }
    }
  }

  lemma {:induction false} MetBeforeIs(rounds: Rounds, r: nat, i: int, j: int)
    requires r <= 3 && r <= |rounds| && 0 <= i < 6
    requires forall q :: 0 <= q < r ==> |rounds[q]| == 3 && PickedUpTo(q, rounds[q], 3)
    ensures MetBefore(rounds[..r], i, j) <==> j in MetRow(r, i)
  {
    hide PickedUpTo, MetBefore, MetRow;
    if r == 0 {
      NothingMet(rounds, i, j);
    } else {
      MetBeforeIs(rounds, r - 1, i, j);
      MetInRound(r - 1, rounds[r - 1], i, j);
      assert rounds[..r] == rounds[..r - 1] + [rounds[r - 1]];
      MetBeforeAppend(rounds[..r - 1], rounds[r - 1], i, j);
    }
  }

  lemma NothingMet(rounds: Rounds, i: int, j: int)
    ensures !MetBefore(rounds[..0], i, j) && j !in MetRow(0, i)
  {
  }

  /** A round that follows by the engine's rules is picked so. */
  lemma RoundIsForced(rounds: Rounds, byes: Byes, r: nat, scores: Scores, s: real)
    requires r < 3 && r < |rounds| && GroupScores(scores, s) && AllRounds(6, rounds, byes) && ByesOk(6, byes)
    requires AllFollow(6, rounds, byes, scores)
    requires forall q :: 0 <= q < r ==> |rounds[q]| == 3 && PickedUpTo(q, rounds[q], 3)
    ensures |rounds[r]| == 3 && PickedUpTo(r, rounds[r], 3)
  {
    hide PickedUpTo, GroupScores, GreedyPicks, GreedyStuck, Repaired, Tracks, IsRound, Working, MetSix;
    assert FollowsFrom(6, rounds[..r], byes[..r], rounds[r], byes[r], scores);
    var f: Forbidden :| |f| == 6 && Tracks(f, rounds[..r]) && Follows(f, byes[..r], rounds[r], byes[r], scores);
    MetSoFar(rounds, r, f);
    EverybodyIsSix();
    AlwaysSix(r);
    LeftIsWithin(r, 0);
    GroupIsSquare(scores, s);
    GreedySucceeds(r, scores, s);
    RoundHasThree(rounds[r]);
    PicksAreForced(r, rounds[r], 3, scores, s);
  }

  lemma AlwaysSix(r: int)
    ensures Left(r, 0) == Left(0, 0)
  {
  }

  lemma RoundHasThree(ps: seq<Edge>)
    requires IsRound(ps, Working(6, None))
    ensures |ps| == 3
  {
    hide Ends, Working, IsMatching;
    EverybodyIsSix();
    EndsCard(ps);
    assert |{0, 1, 2, 3, 4, 5}| == 6;
  }

  lemma {:induction false} RoundsAreForced(rounds: Rounds, byes: Byes, r: nat, scores: Scores, s: real)
    requires r <= 3 && r <= |rounds| && GroupScores(scores, s) && AllRounds(6, rounds, byes) && ByesOk(6, byes)
    requires AllFollow(6, rounds, byes, scores)
    ensures forall q :: 0 <= q < r ==> |rounds[q]| == 3 && PickedUpTo(q, rounds[q], 3)
  {
    hide PickedUpTo, GroupScores, AllRounds, ByesOk, AllFollow;
    if r > 0 {
      RoundsAreForced(rounds, byes, r - 1, scores, s);
      RoundIsForced(rounds, byes, r - 1, scores, s);
    }
  }

  // ----- no fourth round

  lemma SixIsMutual()
    ensures Mutual(MetSix(3))
  {
  }

  /** Three people of one group cannot be paired among themselves. */
  lemma NoFourthRound()
    ensures !HasPerfect(Working(6, None), MetSix(3))
  {
    hide HasPerfect, Mutual;
    SixIsMutual();
    EverybodyIsSix();
    var w, f := Working(6, None), MetSix(3);
    if HasPerfect(w, f) {
      var q := SomeBranchLives(w, f, 0);
      var p := if q == 1 then 2 else 1;
      var r := SomeBranchLives(w - {0, q}, f, p);
      assert false;
    }
  }

  /** Whatever is built on such scores, three rounds leave no fourth, so there never are four. */
  lemma ThreeRoundsAtMost(rounds: Rounds, byes: Byes, f: Forbidden, scores: Scores, s: real)
    requires GroupScores(scores, s) && History(6, rounds, byes, f) && AllFollow(6, rounds, byes, scores)
    ensures |rounds| <= 3
    ensures |rounds| == 3 ==> f == MetSix(3) && !HasPerfect(Working(6, None), f)
  {
    hide PickedUpTo, GroupScores, HasPerfect, MetSix, AllFollow, Bounded;
    NoFourthRound();
    if |rounds| >= 3 {
      RoundsAreForced(rounds, byes, 3, scores, s);
      if |rounds| > 3 {
        FourthRoundExists(rounds, byes);
      } else {
        assert rounds[..3] == rounds;
        MetSoFar(rounds, 3, f);
      }
    }
  }

  lemma FourthRoundExists(rounds: Rounds, byes: Byes)
    requires |rounds| > 3 && AllRounds(6, rounds, byes) && NoRepeats(rounds) && ByesOk(6, byes)
    requires forall q :: 0 <= q < 3 ==> |rounds[q]| == 3 && PickedUpTo(q, rounds[q], 3)
    ensures HasPerfect(Working(6, None), MetSix(3))
  {
    hide PickedUpTo, Working, MetRow;
    var ps := rounds[3];
    assert IsRound(ps, Working(6, byes[3]));
    forall k | 0 <= k < |ps| ensures Allowed(MetSix(3), ps[k].a, ps[k].b) {
      EndOf(ps, k, ps[k].a);
      EndOf(ps, k, ps[k].b);
      EverybodyIsSix();
      MetBeforeIs(rounds, 3, ps[k].a, ps[k].b);
      hide Met;
      assert forall r :: 0 <= r < 3 ==> !Met(rounds[..3][r], ps[k].a, ps[k].b);
    }
    assert Avoids(ps, MetSix(3));
  }
}

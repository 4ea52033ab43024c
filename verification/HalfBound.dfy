/**
 How far the guarantee for half of the rounds reaches. Two groups of m people, m odd, who first
 play all m rounds between the groups have played half of their possible rounds, and none of
 the other m - 1 is left: each group would have to be paired within itself.
 */
module HalfBound {
  import opened Wrappers
  import opened Sets
  import opened Graph
  import opened Greedy
  import opened RoundHistory

  function Wrap(x: int, m: nat): int {
    if x < m then x else x - m
  }

  /** Round r between the groups: i meets the (i + r)-th of the other group. */
  function Across(m: nat, r: nat): (ps: seq<Edge>)
    ensures |ps| == m && forall i :: 0 <= i < m ==> ps[i] == Edge(i, m + Wrap(i + r, m))
  {
    seq(m, i requires 0 <= i < m => Edge(i, m + Wrap(i + r, m)))
  }

  function AcrossRounds(m: nat, k: nat): (rounds: Rounds)
    ensures |rounds| == k && forall r :: 0 <= r < k ==> rounds[r] == Across(m, r)
  {
    seq(k, r requires 0 <= r < k => Across(m, r))
  }

  function NoByes(k: nat): (byes: Byes)
    ensures |byes| == k && forall r :: 0 <= r < k ==> byes[r] == None
  {
    seq(k, r => None)
  }

  lemma AcrossIsMatching(m: nat, r: nat)
    requires r < m
    ensures IsMatching(Across(m, r)) && Ascending(Across(m, r))
  {
  }

  lemma AcrossReaches(m: nat, r: nat, x: int)
    requires r < m
    ensures x in Ends(Across(m, r)) <==> 0 <= x < 2 * m
  {
    var ps := Across(m, r);
    EndsMember(ps, x);
    if 0 <= x < m {
      assert Touches(ps[x], x);
    } else if m <= x < 2 * m {
      var i := if x - m >= r then x - m - r else x - r;
      assert Touches(ps[i], x);
    }
  }

  lemma AcrossIsRound(m: nat, r: nat)
    requires r < m
    ensures IsRound(Across(m, r), Working(2 * m, None))
  {
    AcrossIsMatching(m, r);
    forall x ensures x in Ends(Across(m, r)) <==> x in Working(2 * m, None) {
      AcrossReaches(m, r, x);
      assert x in Range(2 * m) <==> Within(x, 2 * m);
    }
  }

  /** Two people meet in round r exactly if they are of different groups and r apart. */
  lemma AcrossMet(m: nat, r: nat, i: int, j: int)
    requires r < m
    ensures Met(Across(m, r), i, j) <==>
            || (0 <= i < m && j == m + Wrap(i + r, m))
            || (0 <= j < m && i == m + Wrap(j + r, m))
  {
    var ps := Across(m, r);
    if 0 <= i < m && j == m + Wrap(i + r, m) { assert Joins(ps[i], i, j); }
    if 0 <= j < m && i == m + Wrap(j + r, m) { assert Joins(ps[j], i, j); }
  }

  /** The forbidden sets after a round has been recorded. */
  function Recorded(f: Forbidden, ps: seq<Edge>): (g: Forbidden)
    ensures |g| == |f|
  {
    seq(|f|, i requires 0 <= i < |f| => f[i] + PartnersOf(ps, i))
  }

  function PartnersOf(ps: seq<Edge>, i: int): set<int> {
    if ps == [] then {}
    else
      var last := ps[|ps| - 1];
      PartnersOf(ps[..|ps| - 1], i)
      + (if last.a == i then {last.b} else {}) + (if last.b == i then {last.a} else {})
  }

  lemma {:induction false} PartnersAreMet(ps: seq<Edge>, i: int, j: int)
    ensures j in PartnersOf(ps, i) <==> Met(ps, i, j)
  {
    if ps != [] {
      var n := |ps| - 1;
      PartnersAreMet(ps[..n], i, j);
      MetOnceMore(ps[..n], ps[n], i, j);
      assert ps[..n] + [ps[n]] == ps;
    }
  }

  lemma MetOnceMore(ps: seq<Edge>, e: Edge, i: int, j: int)
    ensures Met(ps + [e], i, j) <==> Met(ps, i, j) || Joins(e, i, j)
  {
    var more := ps + [e];
    if k :| 0 <= k < |ps| && Joins(ps[k], i, j) { assert Joins(more[k], i, j); }
    if Joins(e, i, j) { assert Joins(more[|ps|], i, j); }
  }

  lemma RecordedRecords(f: Forbidden, ps: seq<Edge>)
    ensures Records(f, ps, Recorded(f, ps))
  {
    hide Met, PartnersOf;
    forall i, j | 0 <= i < |f| ensures j in Recorded(f, ps)[i] <==> j in f[i] || Met(ps, i, j) {
      PartnersAreMet(ps, i, j);
    }
  }

  /** The next round between the groups repeats nobody. */
  lemma AcrossIsNew(m: nat, k: nat, f: Forbidden)
    requires k < m && |f| == 2 * m && Tracks(f, AcrossRounds(m, k))
    ensures Avoids(Across(m, k), f)
  {
    hide Met;
    var ps := Across(m, k);
    forall i | 0 <= i < |ps| ensures Allowed(f, ps[i].a, ps[i].b) {
      forall r | 0 <= r < k ensures !Met(AcrossRounds(m, k)[r], ps[i].a, ps[i].b) {
        AcrossMet(m, r, ps[i].a, ps[i].b);
      }
      assert !MetBefore(AcrossRounds(m, k), ps[i].a, ps[i].b);
    }
  }

  lemma {:induction false} AcrossHistory(m: nat, k: nat) returns (f: Forbidden)
    requires k <= m
    ensures History(2 * m, AcrossRounds(m, k), NoByes(k), f) && ByesOk(2 * m, NoByes(k) + [None])
  {
    hide AcrossRounds, NoByes, Across, History, ByesOk, Tracks, Mutual, IsRound, Avoids, Records, Recorded, Working;
    AcrossSteps(m, k);
    if k == 0 {
      f := NobodyMet(m);
    } else {
      var r: nat := k - 1;
      f := AcrossHistory(m, r);
      HistoryTracks(2 * m, AcrossRounds(m, r), NoByes(r), f);
      AcrossIsRound(m, r);
      AcrossIsNew(m, r, f);
      var g := Recorded(f, Across(m, r));
      RecordedRecords(f, Across(m, r));
      AppendRound(2 * m, AcrossRounds(m, r), NoByes(r), f, Across(m, r), None, g);
      f := g;
    }
  }

  lemma AcrossSteps(m: nat, k: nat)
    ensures ByesOk(2 * m, NoByes(k) + [None])
    ensures k > 0 ==> AcrossRounds(m, k) == AcrossRounds(m, k - 1) + [Across(m, k - 1)] && NoByes(k) == NoByes(k - 1) + [None]
  {
    assert (2 * m) % 2 == 0;
  }

  lemma NobodyMet(m: nat) returns (f: Forbidden)
    ensures History(2 * m, AcrossRounds(m, 0), NoByes(0), f)
  {
    f := seq(2 * m, i => {});
  }

  lemma HistoryTracks(n: nat, rounds: Rounds, byes: Byes, f: Forbidden)
    requires History(n, rounds, byes, f)
    ensures |f| == n && Tracks(f, rounds) && Mutual(f)
  {
  }

  /** After all rounds between the groups, everybody has met the whole other group. */
  lemma AllMetAcross(m: nat, f: Forbidden, i: int, j: int)
    requires |f| == 2 * m && Tracks(f, AcrossRounds(m, m)) && 0 <= i < m <= j < 2 * m
    ensures j in f[i] && i in f[j]
  {
    hide Met;
    var r: nat := if j - m >= i then j - m - i else j - i;
    AcrossMet(m, r, i, j);
    AcrossMet(m, r, j, i);
    assert Met(AcrossRounds(m, m)[r], i, j) && Met(AcrossRounds(m, m)[r], j, i);
    assert MetBefore(AcrossRounds(m, m), i, j) && MetBefore(AcrossRounds(m, m), j, i);
  }

  // ----- an odd group cannot be paired within itself

  /** The pairs of the first group. */
  function Inside(ps: seq<Edge>, m: int): seq<Edge> {
    if ps == [] then []
    else Inside(ps[..|ps| - 1], m) + (if ps[|ps| - 1].a < m then [ps[|ps| - 1]] else [])
  }

  lemma {:induction false} InsideMembers(ps: seq<Edge>, m: int)
    ensures forall e :: e in Inside(ps, m) <==> e in ps && e.a < m
  {
    if ps != [] {
      InsideMembers(ps[..|ps| - 1], m);
      assert ps == ps[..|ps| - 1] + [ps[|ps| - 1]];
    }
  }

  lemma {:induction false} InsideIsMatching(ps: seq<Edge>, m: int)
    requires IsMatching(ps)
    ensures IsMatching(Inside(ps, m))
  {
    if ps != [] {
      var n := |ps| - 1;
      InsideIsMatching(ps[..n], m);
      InsideMembers(ps[..n], m);
      var ins := Inside(ps[..n], m);
      forall i | 0 <= i < |ins| ensures Apart(ins[i], ps[n]) {
        assert ins[i] in ps[..n];
        var k :| 0 <= k < n && ps[k] == ins[i];
      }
    }
  }

  lemma InsideEnds(ps: seq<Edge>, m: nat, x: int)
    requires forall k :: 0 <= k < |ps| ==> (ps[k].a < m <==> ps[k].b < m)
    ensures x in Ends(Inside(ps, m)) <==> x in Ends(ps) && x < m
  {
    hide Ends, Inside;
    InsideMembers(ps, m);
    var ins := Inside(ps, m);
    EndsMember(ins, x);
    EndsMember(ps, x);
    if x in Ends(ins) {
      var i :| 0 <= i < |ins| && Touches(ins[i], x);
      assert ins[i] in ps;
      var k :| 0 <= k < |ps| && ps[k] == ins[i];
      assert Touches(ps[k], x);
    }
    if x in Ends(ps) && x < m {
      var k :| 0 <= k < |ps| && Touches(ps[k], x);
      assert ps[k] in ins;
      var i :| 0 <= i < |ins| && ins[i] == ps[k];
      assert Touches(ins[i], x);
    }
  }

  /** Pairs within the two groups of m that reach everybody make m even. */
  lemma GroupsAreEven(ps: seq<Edge>, m: nat)
    requires IsMatching(ps) && Ends(ps) == Range(2 * m)
    requires forall k :: 0 <= k < |ps| ==> (ps[k].a < m <==> ps[k].b < m)
    ensures m % 2 == 0
  {
    hide IsMatching, Ends, Inside;
    var ins := Inside(ps, m);
    forall x ensures x in Ends(ins) <==> x in Range(m) {
      InsideEnds(ps, m, x);
      assert x in Range(m) <==> Within(x, m);
      assert x in Range(2 * m) <==> Within(x, 2 * m);
    }
    assert Ends(ins) == Range(m);
    InsideIsMatching(ps, m);
    EndsCard(ins);
    RangeCard(m);
  }

  lemma NobodyCrosses(m: nat, f: Forbidden, ps: seq<Edge>, k: nat)
    requires |f| == 2 * m && Tracks(f, AcrossRounds(m, m)) && Avoids(ps, f) && k < |ps|
    ensures ps[k].a < m <==> ps[k].b < m
  {
    hide Tracks, AcrossRounds;
    assert Allowed(f, ps[k].a, ps[k].b);
    if ps[k].a < m <= ps[k].b { AllMetAcross(m, f, ps[k].a, ps[k].b); }
    if ps[k].b < m <= ps[k].a { AllMetAcross(m, f, ps[k].b, ps[k].a); }
  }

  lemma NoRoundLeft(m: nat, f: Forbidden)
    requires m % 2 == 1 && |f| == 2 * m && Tracks(f, AcrossRounds(m, m))
    ensures !HasPerfect(Working(2 * m, None), f)
  {
    hide Tracks, AcrossRounds, IsMatching, Avoids;
    if HasPerfect(Working(2 * m, None), f) {
      var ps: seq<Edge> :| PerfectOn(ps, Working(2 * m, None)) && Avoids(ps, f);
      forall k | 0 <= k < |ps| ensures ps[k].a < m <==> ps[k].b < m {
        NobodyCrosses(m, f, ps, k);
      }
      GroupsAreEven(ps, m);
    }
  }

  /**
   For 2m participants with m odd the guarantee for the first m rounds is the best there is: some
   m rounds leave no further one, although 2m - 1 rounds pass the up-front check.
   */
  lemma HalfIsTheLimit(m: nat)
    requires m % 2 == 1
    ensures Blocked(2 * m, m)
  {
    hide History, HasPerfect, ByesOk, Tracks, AcrossRounds, NoByes;
    var f := AcrossHistory(m, m);
    HistoryTracks(2 * m, AcrossRounds(m, m), NoByes(m), f);
    NoRoundLeft(m, f);
    BlockedBy(2 * m, AcrossRounds(m, m), NoByes(m), f, None);
  }

  lemma BlockedBy(n: nat, rounds: Rounds, byes: Byes, f: Forbidden, bye: Option<int>)
    requires History(n, rounds, byes, f) && ByesOk(n, byes + [bye]) && !HasPerfect(Working(n, bye), f)
    ensures Blocked(n, |rounds|)
  {
  }
}

/**
 The 2-opt local improvement: two pairs of a round exchange partners when that raises the score
 and repeats no pair of any round. A set of all pairs and a set of the round's pairs are kept in
 step with the list of pairs.
 */
module Improvement {
  import opened Wrappers
  import opened Graph
  import opened Ranking
  import opened Greedy
  import opened RoundHistory

  const MAX_PASSES: nat := 10
  const TOLERANCE: real := 0.000000001

  /** Exchange partners between pairs i and j: (a,c)(b,d), or (a,d)(b,c) when `crossed`. */
  datatype Swap = Swap(i: int, j: int, crossed: bool)

  function Score(scores: Scores, e: Edge): real {
    if 0 <= e.a < |scores| && 0 <= e.b < |scores[e.a]| then scores[e.a][e.b] else 0.0
  }

  function Total(ps: seq<Edge>, scores: Scores): real {
    if ps == [] then 0.0 else Total(ps[..|ps| - 1], scores) + Score(scores, ps[|ps| - 1])
  }

  predicate Fits(ps: seq<Edge>, s: Swap) {
    0 <= s.i < s.j < |ps|
  }

  function New1(ps: seq<Edge>, s: Swap): Edge
    requires Fits(ps, s)
  {
    Canon(ps[s.i].a, if s.crossed then ps[s.j].b else ps[s.j].a)
  }

  function New2(ps: seq<Edge>, s: Swap): Edge
    requires Fits(ps, s)
  {
    Canon(ps[s.i].b, if s.crossed then ps[s.j].a else ps[s.j].b)
  }

  /** The code's legality test, with its escape for pairs of the current round. */
  predicate Legal(ps: seq<Edge>, s: Swap, all: set<Edge>, cur: set<Edge>)
    requires Fits(ps, s)
  {
    var n1, n2 := New1(ps, s), New2(ps, s);
    n1.a != n1.b && n2.a != n2.b && (n1 !in all || n1 in cur) && (n2 !in all || n2 in cur)
  }

  predicate Improves(ps: seq<Edge>, s: Swap, scores: Scores)
    requires Fits(ps, s)
  {
    Score(scores, New1(ps, s)) + Score(scores, New2(ps, s)) >
    Score(scores, ps[s.i]) + Score(scores, ps[s.j]) + TOLERANCE
  }

  predicate Good(ps: seq<Edge>, s: Swap, all: set<Edge>, cur: set<Edge>, scores: Scores) {
    Fits(ps, s) && Legal(ps, s, all, cur) && Improves(ps, s, scores)
  }

  /** The order in which the scan looks at swaps. */
  predicate Before(s: Swap, t: Swap) {
    s.i < t.i || (s.i == t.i && (s.j < t.j || (s.j == t.j && !s.crossed && t.crossed)))
  }

  ghost predicate FirstGood(ps: seq<Edge>, s: Swap, all: set<Edge>, cur: set<Edge>, scores: Scores) {
    Good(ps, s, all, cur, scores) && NoneBefore(ps, s, all, cur, scores)
  }

  ghost predicate NoneBefore(ps: seq<Edge>, s: Swap, all: set<Edge>, cur: set<Edge>, scores: Scores) {
    forall t :: Before(t, s) ==> !Good(ps, t, all, cur, scores)
  }

  ghost predicate LocallyOptimal(ps: seq<Edge>, all: set<Edge>, cur: set<Edge>, scores: Scores) {
    forall t :: !Good(ps, t, all, cur, scores)
  }

  function Swapped(ps: seq<Edge>, s: Swap): (qs: seq<Edge>)
    requires Fits(ps, s)
    ensures |qs| == |ps|
  {
    ps[s.i := New1(ps, s)][s.j := New2(ps, s)]
  }

  function Exchanged(from: set<Edge>, ps: seq<Edge>, s: Swap): set<Edge>
    requires Fits(ps, s)
  {
    from - {ps[s.i]} - {ps[s.j]} + {New1(ps, s)} + {New2(ps, s)}
  }

  function PairSet(ps: seq<Edge>): set<Edge> {
    set e | e in ps
  }

  // ----- what a swap does

  lemma ScanDone(ps: seq<Edge>, i: int, all: set<Edge>, cur: set<Edge>, scores: Scores)
    requires i >= |ps| && NoneBefore(ps, Swap(i, i + 1, false), all, cur, scores)
    ensures LocallyOptimal(ps, all, cur, scores)
  {
    hide Legal, Improves;
    forall t ensures !Good(ps, t, all, cur, scores) {
      if Fits(ps, t) { assert Before(t, Swap(i, i + 1, false)); }
    }
  }

  lemma NextRow(ps: seq<Edge>, i: int, j: int, all: set<Edge>, cur: set<Edge>, scores: Scores)
    requires j >= |ps| && NoneBefore(ps, Swap(i, j, false), all, cur, scores)
    ensures NoneBefore(ps, Swap(i + 1, i + 2, false), all, cur, scores)
  {
    hide Legal, Improves;
    forall t | Before(t, Swap(i + 1, i + 2, false)) ensures !Good(ps, t, all, cur, scores) {
      if Fits(ps, t) { assert Before(t, Swap(i, j, false)); }
    }
  }

  lemma NextCell(ps: seq<Edge>, i: int, j: int, all: set<Edge>, cur: set<Edge>, scores: Scores)
    requires NoneBefore(ps, Swap(i, j, false), all, cur, scores)
    requires !Good(ps, Swap(i, j, false), all, cur, scores) && !Good(ps, Swap(i, j, true), all, cur, scores)
    ensures NoneBefore(ps, Swap(i, j + 1, false), all, cur, scores)
  {
    hide Good;
    forall t | Before(t, Swap(i, j + 1, false)) ensures !Good(ps, t, all, cur, scores) {
      if t.i == i && t.j == j {
        assert t == Swap(i, j, t.crossed);
      } else {
        assert Before(t, Swap(i, j, false));
      }
    }
  }

  lemma CrossedNext(ps: seq<Edge>, i: int, j: int, all: set<Edge>, cur: set<Edge>, scores: Scores)
    requires NoneBefore(ps, Swap(i, j, false), all, cur, scores) && !Good(ps, Swap(i, j, false), all, cur, scores)
    ensures NoneBefore(ps, Swap(i, j, true), all, cur, scores)
  {
    hide Good;
    forall t | Before(t, Swap(i, j, true)) ensures !Good(ps, t, all, cur, scores) {
      if t != Swap(i, j, false) { assert Before(t, Swap(i, j, false)); }
    }
  }

  /** One scan over all pairs of pairs: the first good swap, or none at all. */
  method FindSwap(ps: seq<Edge>, all: set<Edge>, cur: set<Edge>, scores: Scores) returns (found: Option<Swap>)
    ensures found.Some? ==> FirstGood(ps, found.value, all, cur, scores)
    ensures found.None? ==> LocallyOptimal(ps, all, cur, scores)
    ensures IsMatching(ps) && Ascending(ps) && cur == PairSet(ps) && cur <= all ==>
              if found.None? then NoneBetter(ps, all, scores)
              else Fits(ps, found.value) && FirstBetter(ps, Swapped(ps, found.value), found.value.i, found.value.j, all, scores)
  {
    hide Good, IsMatching, Ascending, BetterRound, NoneBetter, FirstBetter, LocallyOptimal, FirstGood;
    found := Scan(ps, all, cur, scores);
    if IsMatching(ps) && Ascending(ps) && cur == PairSet(ps) && cur <= all {
      if found.None? {
        OptimalIffNoneBetter(ps, all, scores);
      } else {
        FirstGoodIsFirstBetter(ps, found.value, all, scores);
      }
    }
  }

  method Scan(ps: seq<Edge>, all: set<Edge>, cur: set<Edge>, scores: Scores) returns (found: Option<Swap>)
    ensures found.Some? ==> FirstGood(ps, found.value, all, cur, scores)
    ensures found.None? ==> LocallyOptimal(ps, all, cur, scores)
  {
    hide Good;
    var i := 0;
    StartScan(ps, all, cur, scores);
    while i < |ps|
      invariant NoneBefore(ps, Swap(i, i + 1, false), all, cur, scores)
    {
      var j := i + 1;
      while j < |ps|
        invariant NoneBefore(ps, Swap(i, j, false), all, cur, scores)
      {
        if Good(ps, Swap(i, j, false), all, cur, scores) {
          return Some(Swap(i, j, false));
        }
        CrossedNext(ps, i, j, all, cur, scores);
        if Good(ps, Swap(i, j, true), all, cur, scores) {
          return Some(Swap(i, j, true));
        }
        NextCell(ps, i, j, all, cur, scores);
        j := j + 1;
      }
      NextRow(ps, i, j, all, cur, scores);
      i := i + 1;
    }
    ScanDone(ps, i, all, cur, scores);
    return None;
  }

  lemma StartScan(ps: seq<Edge>, all: set<Edge>, cur: set<Edge>, scores: Scores)
    ensures NoneBefore(ps, Swap(0, 1, false), all, cur, scores)
  {
    hide Legal, Improves;
    forall t | Before(t, Swap(0, 1, false)) ensures !Good(ps, t, all, cur, scores) {
      assert !Fits(ps, t);
    }
  }

  /** The four people of a swap stay the same and stay in two separate pairs. */
  lemma SwapEnds(ps: seq<Edge>, s: Swap)
    requires Fits(ps, s) && IsMatching(ps)
    ensures Apart(New1(ps, s), New2(ps, s)) && New1(ps, s).a < New1(ps, s).b && New2(ps, s).a < New2(ps, s).b
    ensures forall x :: Touches(New1(ps, s), x) || Touches(New2(ps, s), x) <==> Touches(ps[s.i], x) || Touches(ps[s.j], x)
  {
    assert Apart(ps[s.i], ps[s.j]);
  }

  lemma SwappedMatching(ps: seq<Edge>, s: Swap)
    requires Fits(ps, s) && IsMatching(ps) && Ascending(ps)
    ensures IsMatching(Swapped(ps, s)) && Ascending(Swapped(ps, s))
  {
    SwapEnds(ps, s);
    var qs, n1, n2 := Swapped(ps, s), New1(ps, s), New2(ps, s);
    hide New1, New2;
    forall k | 0 <= k < |ps| && k != s.i && k != s.j ensures Apart(ps[k], n1) && Apart(ps[k], n2) {
      assert Apart(ps[k], ps[s.i]) && Apart(ps[k], ps[s.j]) by {
        assert if k < s.i then Apart(ps[k], ps[s.i]) else Apart(ps[s.i], ps[k]);
        assert if k < s.j then Apart(ps[k], ps[s.j]) else Apart(ps[s.j], ps[k]);
      }
      assert forall x :: Touches(n1, x) ==> !Touches(ps[k], x);
      assert forall x :: Touches(n2, x) ==> !Touches(ps[k], x);
      assert Touches(n1, n1.a) && Touches(n1, n1.b) && Touches(n2, n2.a) && Touches(n2, n2.b);
    }
  }

  lemma SwappedEnds(ps: seq<Edge>, s: Swap)
    requires Fits(ps, s) && IsMatching(ps)
    ensures Ends(Swapped(ps, s)) == Ends(ps)
  {
    SwapEnds(ps, s);
    var qs := Swapped(ps, s);
    hide New1, New2, Touches, IsMatching, Apart;
    forall x ensures x in Ends(qs) <==> x in Ends(ps) {
      EndsMember(ps, x);
      EndsMember(qs, x);
      if k :| 0 <= k < |ps| && Touches(ps[k], x) {
        assert if k == s.i || k == s.j then Touches(qs[s.i], x) || Touches(qs[s.j], x) else Touches(qs[k], x);
      }
      if k :| 0 <= k < |qs| && Touches(qs[k], x) {
        assert if k == s.i || k == s.j then Touches(ps[s.i], x) || Touches(ps[s.j], x) else Touches(ps[k], x);
      }
    }
  }

  /** A new pair joins people of two different pairs, so the round cannot contain it already. */
  lemma NewIsNotCurrent(ps: seq<Edge>, s: Swap)
    requires Fits(ps, s) && IsMatching(ps)
    ensures New1(ps, s) !in ps && New2(ps, s) !in ps
  {
    assert Apart(ps[s.i], ps[s.j]);
    forall k | 0 <= k < |ps| ensures ps[k] != New1(ps, s) && ps[k] != New2(ps, s) {
      if k != s.i { assert if k < s.i then Apart(ps[k], ps[s.i]) else Apart(ps[s.i], ps[k]); }
    }
  }

  /** So the test `n in current_round_set` never decides anything: legal means unused. */
  lemma EscapeNeverApplies(ps: seq<Edge>, s: Swap, all: set<Edge>)
    requires Fits(ps, s) && IsMatching(ps)
    ensures Legal(ps, s, all, PairSet(ps)) <==> New1(ps, s) !in all && New2(ps, s) !in all
  {
    NewIsNotCurrent(ps, s);
    SwapEnds(ps, s);
  }

  lemma SwappedPairSet(ps: seq<Edge>, s: Swap)
    requires Fits(ps, s) && IsMatching(ps)
    ensures PairSet(Swapped(ps, s)) == Exchanged(PairSet(ps), ps, s)
  {
    NewIsNotCurrent(ps, s);
    var qs := Swapped(ps, s);
    assert forall k :: 0 <= k < |ps| && k != s.i && k != s.j ==> ps[k] != ps[s.i] && ps[k] != ps[s.j] by {
      assert forall k, l :: 0 <= k < l < |ps| ==> Apart(ps[k], ps[l]);
    }
    hide New1, New2, IsMatching;
    forall e ensures e in qs <==> e in Exchanged(PairSet(ps), ps, s) {
      if e in ps {
        var k :| 0 <= k < |ps| && ps[k] == e;
        if k != s.i && k != s.j { assert qs[k] == e; }
      }
      if e in qs {
        var k :| 0 <= k < |qs| && qs[k] == e;
        if k != s.i && k != s.j { assert ps[k] == e; }
      }
      assert qs[s.i] == New1(ps, s) && qs[s.j] == New2(ps, s);
    }
  }

  lemma {:induction false} TotalUpdate(ps: seq<Edge>, k: int, e: Edge, scores: Scores)
    requires 0 <= k < |ps|
    ensures Total(ps[k := e], scores) == Total(ps, scores) - Score(scores, ps[k]) + Score(scores, e)
  {
    var last := |ps| - 1;
    if k == last {
      assert ps[k := e][..last] == ps[..last];
    } else {
      TotalUpdate(ps[..last], k, e, scores);
      assert ps[k := e][..last] == ps[..last][k := e];
    }
  }

  lemma SwappedTotal(ps: seq<Edge>, s: Swap, scores: Scores)
    requires Fits(ps, s)
    ensures Improves(ps, s, scores) <==> Total(Swapped(ps, s), scores) > Total(ps, scores) + TOLERANCE
  {
    TotalUpdate(ps, s.i, New1(ps, s), scores);
    TotalUpdate(ps[s.i := New1(ps, s)], s.j, New2(ps, s), scores);
  }

  // ----- better rounds, without reference to how they are searched for

  /** The people of pairs i and j are paired anew, everybody else stays. */
  ghost predicate Rearranges(ps: seq<Edge>, qs: seq<Edge>, i: int, j: int) {
    && 0 <= i < j < |ps| == |qs|
    && (forall k :: 0 <= k < |ps| && k != i && k != j ==> qs[k] == ps[k])
    && IsMatching(qs) && Ascending(qs) && Ends(qs) == Ends(ps)
  }

  /** Pairing i and j anew uses no pair of any round and raises the round's total by more than the tolerance. */
  ghost predicate BetterRound(ps: seq<Edge>, qs: seq<Edge>, i: int, j: int, used: set<Edge>, scores: Scores) {
    && Rearranges(ps, qs, i, j) && qs[i] !in used && qs[j] !in used
    && Total(qs, scores) > Total(ps, scores) + TOLERANCE
  }

  ghost predicate NoneBetter(ps: seq<Edge>, used: set<Edge>, scores: Scores) {
    forall qs, i, j :: !BetterRound(ps, qs, i, j, used, scores)
  }

  /** The first people of the two pairs meet each other. */
  predicate FirstsMeet(ps: seq<Edge>, qs: seq<Edge>, i: int, j: int)
    requires 0 <= i < j < |ps| == |qs|
  {
    Joins(qs[i], ps[i].a, ps[j].a) || Joins(qs[j], ps[i].a, ps[j].a)
  }

  /**
   The better round that is found first: no earlier two pairs have one, the first people meet each
   other if that is better at all, and the first person of pair i stays at place i.
   */
  ghost predicate FirstBetter(ps: seq<Edge>, qs: seq<Edge>, i: int, j: int, used: set<Edge>, scores: Scores) {
    && BetterRound(ps, qs, i, j, used, scores) && Touches(qs[i], ps[i].a)
    && (forall rs, k, l :: k < i || (k == i && l < j) ==> !BetterRound(ps, rs, k, l, used, scores))
    && (forall rs :: BetterRound(ps, rs, i, j, used, scores) && FirstsMeet(ps, rs, i, j) ==> FirstsMeet(ps, qs, i, j))
  }

  // ----- the search finds them

  lemma GoodIsBetter(ps: seq<Edge>, s: Swap, used: set<Edge>, scores: Scores)
    requires IsMatching(ps) && Ascending(ps) && Good(ps, s, used, PairSet(ps), scores)
    ensures BetterRound(ps, Swapped(ps, s), s.i, s.j, used, scores)
    ensures Touches(Swapped(ps, s)[s.i], ps[s.i].a) && (FirstsMeet(ps, Swapped(ps, s), s.i, s.j) <==> !s.crossed)
  {
    SwappedMatching(ps, s);
    SwappedEnds(ps, s);
    SwappedTotal(ps, s, scores);
    EscapeNeverApplies(ps, s, used);
    FirstsOf(ps, s);
    hide IsMatching, Ascending, Improves, Legal, New1, New2;
  }

  lemma FirstsOf(ps: seq<Edge>, s: Swap)
    requires Fits(ps, s) && IsMatching(ps)
    ensures Touches(Swapped(ps, s)[s.i], ps[s.i].a) && (FirstsMeet(ps, Swapped(ps, s), s.i, s.j) <==> !s.crossed)
  {
    assert Apart(ps[s.i], ps[s.j]);
  }

  /** Everybody of the two pairs is in one of the two new ones. */
  lemma StillPlaced(ps: seq<Edge>, qs: seq<Edge>, i: int, j: int, x: int)
    requires IsMatching(ps) && Rearranges(ps, qs, i, j) && (Touches(ps[i], x) || Touches(ps[j], x))
    ensures Touches(qs[i], x) || Touches(qs[j], x)
  {
    EndOf(ps, if Touches(ps[i], x) then i else j, x);
    EndsMember(qs, x);
    var k :| 0 <= k < |qs| && Touches(qs[k], x);
    ApartFromOthers(ps, k, if Touches(ps[i], x) then i else j);
  }

  lemma ApartFromOthers(ps: seq<Edge>, k: int, l: int)
    requires IsMatching(ps) && 0 <= k < |ps| && 0 <= l < |ps|
    ensures k != l ==> Apart(ps[k], ps[l])
  {
    assert k < l ==> Apart(ps[k], ps[l]);
    assert l < k ==> Apart(ps[l], ps[k]);
  }

  /** Two new pairs of the same four people are those of one of the two swaps. */
  lemma NewPairsAre(e: Edge, g: Edge, p: Edge, q: Edge)
    requires e.a < e.b && g.a < g.b && p.a < p.b && q.a < q.b && Apart(e, g) && Apart(p, q)
    requires forall x :: Touches(p, x) || Touches(q, x) ==> Touches(e, x) || Touches(g, x)
    requires e != p && e != q && g != p && g != q
    ensures var along := Joins(e, p.a, q.a) || Joins(g, p.a, q.a);
            var n1 := Canon(p.a, if along then q.a else q.b); var n2 := Canon(p.b, if along then q.b else q.a);
            (e == n1 && g == n2) || (e == n2 && g == n1)
  {
    assert Touches(p, p.a) && Touches(p, p.b) && Touches(q, q.a) && Touches(q, q.b);
  }

  lemma BetterIsGood(ps: seq<Edge>, qs: seq<Edge>, i: int, j: int, used: set<Edge>, scores: Scores)
    requires IsMatching(ps) && Ascending(ps) && PairSet(ps) <= used && BetterRound(ps, qs, i, j, used, scores)
    ensures Good(ps, Swap(i, j, !FirstsMeet(ps, qs, i, j)), used, PairSet(ps), scores)
  {
    var s := Swap(i, j, !FirstsMeet(ps, qs, i, j));
    RearrangedIsSwapped(ps, qs, s);
    hide Ends, Improves, New1, New2, IsMatching, Ascending;
    EscapeNeverApplies(ps, s, used);
    SwappedTotal(ps, s, scores);
    SameTotal(ps, qs, s, scores);
  }

  lemma RearrangedIsSwapped(ps: seq<Edge>, qs: seq<Edge>, s: Swap)
    requires IsMatching(ps) && Ascending(ps) && Rearranges(ps, qs, s.i, s.j) && s.crossed == !FirstsMeet(ps, qs, s.i, s.j)
    requires qs[s.i] !in PairSet(ps) && qs[s.j] !in PairSet(ps)
    ensures (qs[s.i] == New1(ps, s) && qs[s.j] == New2(ps, s)) || (qs[s.i] == New2(ps, s) && qs[s.j] == New1(ps, s))
  {
    hide Ends;
    var p, q := ps[s.i], ps[s.j];
    forall x | Touches(p, x) || Touches(q, x) ensures Touches(qs[s.i], x) || Touches(qs[s.j], x) {
      StillPlaced(ps, qs, s.i, s.j, x);
    }
    OldAreCurrent(ps, s);
    NewPairsAre(qs[s.i], qs[s.j], p, q);
  }

  /** The order of the two new pairs does not matter for the total. */
  lemma SameTotal(ps: seq<Edge>, qs: seq<Edge>, s: Swap, scores: Scores)
    requires Fits(ps, s) && |qs| == |ps| && forall k :: 0 <= k < |ps| && k != s.i && k != s.j ==> qs[k] == ps[k]
    requires (qs[s.i] == New1(ps, s) && qs[s.j] == New2(ps, s)) || (qs[s.i] == New2(ps, s) && qs[s.j] == New1(ps, s))
    ensures Total(qs, scores) == Total(Swapped(ps, s), scores)
  {
    var n1, n2 := New1(ps, s), New2(ps, s);
    TotalUpdate(ps, s.i, n1, scores);
    TotalUpdate(ps[s.i := n1], s.j, n2, scores);
    TotalUpdate(ps, s.i, n2, scores);
    TotalUpdate(ps[s.i := n2], s.j, n1, scores);
    assert qs == ps[s.i := qs[s.i]][s.j := qs[s.j]];
  }

  lemma FirstGoodIsFirstBetter(ps: seq<Edge>, s: Swap, used: set<Edge>, scores: Scores)
    requires IsMatching(ps) && Ascending(ps) && PairSet(ps) <= used && FirstGood(ps, s, used, PairSet(ps), scores)
    ensures Fits(ps, s) && FirstBetter(ps, Swapped(ps, s), s.i, s.j, used, scores)
  {
    hide Good, BetterRound, IsMatching, Ascending, Swapped, FirstsMeet;
    GoodFits(ps, s, used, PairSet(ps), scores);
    GoodIsBetter(ps, s, used, scores);
    forall rs, k, l | k < s.i || (k == s.i && l < s.j) ensures !BetterRound(ps, rs, k, l, used, scores) {
      if BetterRound(ps, rs, k, l, used, scores) {
        BetterFits(ps, rs, k, l, used, scores);
        BetterIsGood(ps, rs, k, l, used, scores);
      }
    }
    forall rs | BetterRound(ps, rs, s.i, s.j, used, scores) ensures |rs| == |ps| && (FirstsMeet(ps, rs, s.i, s.j) ==> !s.crossed) {
      BetterFits(ps, rs, s.i, s.j, used, scores);
      BetterIsGood(ps, rs, s.i, s.j, used, scores);
    }
  }

  lemma BetterFits(ps: seq<Edge>, qs: seq<Edge>, i: int, j: int, used: set<Edge>, scores: Scores)
    requires BetterRound(ps, qs, i, j, used, scores)
    ensures 0 <= i < j < |ps| == |qs|
  {
  }

  lemma OptimalIffNoneBetter(ps: seq<Edge>, used: set<Edge>, scores: Scores)
    requires IsMatching(ps) && Ascending(ps) && PairSet(ps) <= used
    ensures LocallyOptimal(ps, used, PairSet(ps), scores) <==> NoneBetter(ps, used, scores)
  {
    hide Good, BetterRound, IsMatching, Ascending;
    if LocallyOptimal(ps, used, PairSet(ps), scores) {
      forall qs, i, j ensures !BetterRound(ps, qs, i, j, used, scores) {
        if BetterRound(ps, qs, i, j, used, scores) {
          BetterFits(ps, qs, i, j, used, scores);
          BetterIsGood(ps, qs, i, j, used, scores);
        }
      }
    }
    if NoneBetter(ps, used, scores) {
      forall t ensures !Good(ps, t, used, PairSet(ps), scores) {
        if Good(ps, t, used, PairSet(ps), scores) {
          GoodIsBetter(ps, t, used, scores);
        }
      }
    }
  }

  // ----- one round

  /** `all` is the fixed pairs of the other rounds plus this round's pairs, which they do not share. */
  ghost predicate InStep(ps: seq<Edge>, w: set<int>, all: set<Edge>, cur: set<Edge>, others: set<Edge>) {
    && PerfectOn(ps, w) && Ascending(ps)
    && cur == PairSet(ps) && all == others + cur && others !! cur
  }

  /** A legal swap keeps the list, the round's set and the global set in step. */
  lemma SwapInStep(ps: seq<Edge>, s: Swap, w: set<int>, all: set<Edge>, cur: set<Edge>, others: set<Edge>, scores: Scores)
    requires InStep(ps, w, all, cur, others) && Good(ps, s, all, cur, scores)
    ensures InStep(Swapped(ps, s), w, Exchanged(all, ps, s), Exchanged(cur, ps, s), others)
    ensures Total(Swapped(ps, s), scores) > Total(ps, scores) + TOLERANCE
  {
    hide IsMatching, Ascending, New1, New2, Legal, Improves, Swapped, PairSet;
    SwappedMatching(ps, s);
    SwappedEnds(ps, s);
    SwappedPairSet(ps, s);
    SwappedTotal(ps, s, scores);
    EscapeNeverApplies(ps, s, all);
    GoodImproves(ps, s, all, cur, scores);
    OldAreCurrent(ps, s);
    ExchangeSets(all, cur, others, ps, s);
  }

  lemma GoodImproves(ps: seq<Edge>, s: Swap, all: set<Edge>, cur: set<Edge>, scores: Scores)
    requires Good(ps, s, all, cur, scores)
    ensures Improves(ps, s, scores)
  {
  }

  lemma OldAreCurrent(ps: seq<Edge>, s: Swap)
    requires Fits(ps, s)
    ensures ps[s.i] in PairSet(ps) && ps[s.j] in PairSet(ps)
  {
  }

  lemma ExchangeSets(all: set<Edge>, cur: set<Edge>, others: set<Edge>, ps: seq<Edge>, s: Swap)
    requires Fits(ps, s) && all == others + cur && others !! cur
    requires ps[s.i] in cur && ps[s.j] in cur && New1(ps, s) !in all && New2(ps, s) !in all
    ensures Exchanged(all, ps, s) == others + Exchanged(cur, ps, s) && others !! Exchanged(cur, ps, s)
  {
  }

  /** k times the better round that is found first, the pairs of the other rounds being `others`. */
  ghost predicate SwapsTo(start: seq<Edge>, others: set<Edge>, k: nat, ps: seq<Edge>, scores: Scores) {
    if k == 0 then ps == start
    else exists mid, i, j :: SwapsTo(start, others, k - 1, mid, scores) && SwapsOnce(mid, others, i, j, ps, scores)
  }

  ghost predicate SwapsOnce(mid: seq<Edge>, others: set<Edge>, i: int, j: int, ps: seq<Edge>, scores: Scores) {
    FirstBetter(mid, ps, i, j, others + PairSet(mid), scores)
  }

  /** What a round becomes: ten such changes, or fewer when nothing better is left. */
  ghost predicate Improved(start: seq<Edge>, others: set<Edge>, ps: seq<Edge>, scores: Scores) {
    exists k: nat :: k <= MAX_PASSES && SwapsTo(start, others, k, ps, scores)
                     && (k < MAX_PASSES ==> NoneBetter(ps, others + PairSet(ps), scores))
  }

  /**
   Up to ten first-improvement swaps. The round stays a perfect matching of the same people,
   no pair of another round is ever taken, and every swap raises the total score; if fewer than
   ten were made, no two pairs can be paired anew with a better total.
   */
  method ImproveRound(start: seq<Edge>, ghost w: set<int>, all0: set<Edge>, scores: Scores)
    returns (ps: seq<Edge>, all: set<Edge>, passes: nat)
    requires PerfectOn(start, w) && Ascending(start) && PairSet(start) <= all0
    ensures InStep(ps, w, all, PairSet(ps), all0 - PairSet(start))
    ensures Total(ps, scores) >= Total(start, scores) + passes as real * TOLERANCE
    ensures passes <= MAX_PASSES
    ensures passes < MAX_PASSES ==> NoneBetter(ps, all, scores)
    ensures Improved(start, all0 - PairSet(start), ps, scores)
  {
    hide Good, Swapped, Exchanged, LocallyOptimal, NoneBetter, FirstBetter, Ascending, FirstGood, IsMatching;
    ps, all, passes := start, all0, 0;
    var cur := PairSet(start);
    ghost var others := all0 - cur;
    while passes < MAX_PASSES
      invariant InStep(ps, w, all, cur, others) && passes <= MAX_PASSES
      invariant Total(ps, scores) >= Total(start, scores) + passes as real * TOLERANCE
      invariant SwapsTo(start, others, passes, ps, scores)
      decreases MAX_PASSES - passes
    {
      var found := FindSwap(ps, all, cur, scores);
      if found.None? {
        OptimalIffNoneBetter(ps, all, scores);
        return;
      }
      var s := found.value;
      FirstGoodIsFirstBetter(ps, s, all, scores);
      GoodFits(ps, s, all, cur, scores);
      SwapInStep(ps, s, w, all, cur, others, scores);
      assert SwapsOnce(ps, others, s.i, s.j, Swapped(ps, s), scores);
      all, cur, ps := Exchanged(all, ps, s), Exchanged(cur, ps, s), Swapped(ps, s);
      passes := passes + 1;
    }
  }

  lemma GoodFits(ps: seq<Edge>, s: Swap, all: set<Edge>, cur: set<Edge>, scores: Scores)
    requires FirstGood(ps, s, all, cur, scores)
    ensures Fits(ps, s) && Good(ps, s, all, cur, scores)
  {
  }

  // ----- all rounds

  ghost predicate DisjointRounds(rounds: Rounds) {
    forall r, s :: 0 <= r < s < |rounds| ==> PairSet(rounds[r]) !! PairSet(rounds[s])
  }

  function AllPairs(rounds: Rounds): set<Edge> {
    set r, e | 0 <= r < |rounds| && e in rounds[r] :: e
  }

  lemma DisjointFromNoRepeats(rounds: Rounds)
    requires NoRepeats(rounds)
    ensures DisjointRounds(rounds)
  {
    forall r, s, e | 0 <= r < s < |rounds| && e in rounds[r] ensures e !in rounds[s] {
      var k :| 0 <= k < |rounds[r]| && rounds[r][k] == e;
      assert Joins(rounds[r][k], e.a, e.b);
      assert Met(rounds[r], e.a, e.b);
    }
  }

  /** Putting an improved round back keeps the global pair set equal to the union of all rounds. */
  lemma ReplaceRound(rounds: Rounds, r: int, ps: seq<Edge>, all: set<Edge>, after: set<Edge>)
    requires 0 <= r < |rounds| && DisjointRounds(rounds) && all == AllPairs(rounds)
    requires after == (all - PairSet(rounds[r])) + PairSet(ps) && (all - PairSet(rounds[r])) !! PairSet(ps)
    ensures DisjointRounds(rounds[r := ps]) && after == AllPairs(rounds[r := ps])
  {
    var next := rounds[r := ps];
    forall s, e | 0 <= s < |rounds| && s != r && e in rounds[s] ensures e in all - PairSet(rounds[r]) {
      assert if s < r then PairSet(rounds[s]) !! PairSet(rounds[r]) else PairSet(rounds[r]) !! PairSet(rounds[s]);
      assert e in PairSet(rounds[s]);
    }
    forall s, t | 0 <= s < t < |next| ensures PairSet(next[s]) !! PairSet(next[t]) {
      if s != r && t != r { assert PairSet(rounds[s]) !! PairSet(rounds[t]); }
    }
    forall e ensures e in after <==> e in AllPairs(next) {
      if e in after && e !in PairSet(ps) {
        var s :| 0 <= s < |rounds| && e in rounds[s];
        assert s != r && next[s] == rounds[s];
      }
      if e in PairSet(ps) { assert next[r] == ps; }
    }
  }

  ghost predicate NoRoundWorse(rounds: Rounds, start: Rounds, scores: Scores) {
    |rounds| == |start| && forall r :: 0 <= r < |start| ==> Total(rounds[r], scores) >= Total(start[r], scores)
  }

  /** The pairs of the other rounds when round r is improved: those before it improved, those after it not yet. */
  function OthersAt(rounds: Rounds, start: Rounds, r: int): set<Edge>
    requires 0 <= r < |start| == |rounds|
  {
    AllPairs(rounds[..r] + start[r..]) - PairSet(start[r])
  }

  ghost predicate EachImproved(rounds: Rounds, start: Rounds, upTo: nat, scores: Scores) {
    |rounds| == |start| && forall r :: 0 <= r < upTo && r < |start| ==> Improved(start[r], OthersAt(rounds, start, r), rounds[r], scores)
  }

  /**
   Improve every round in turn: still rounds of the same people, still no pair twice, no round
   worse, and each round improved by ten swaps or until no good swap was left in it at its turn.
   */
  method ImproveAll(n: nat, start: Rounds, ghost byes: Byes, scores: Scores) returns (rounds: Rounds)
    requires AllRounds(n, start, byes) && NoRepeats(start)
    ensures AllRounds(n, rounds, byes) && DisjointRounds(rounds) && NoRoundWorse(rounds, start, scores)
    ensures EachImproved(rounds, start, |start|, scores)
  {
    hide NoRepeats, DisjointRounds, AllPairs, PerfectOn, Ascending, Total, LocallyOptimal, Working, PairSet, Improved, EachImproved;
    NoneImproved(start, scores);
    rounds := start;
    var all := AllPairs(start);
    DisjointFromNoRepeats(start);
    for r := 0 to |start|
      invariant AllRounds(n, rounds, byes) && DisjointRounds(rounds) && all == AllPairs(rounds)
      invariant NoRoundWorse(rounds, start, scores)
      invariant forall s :: r <= s < |start| ==> rounds[s] == start[s]
      invariant EachImproved(rounds, start, r, scores)
    {
      ghost var before := all;
      RoundInAll(rounds, r);
      var ps, passes;
      ps, all, passes := ImproveRound(rounds[r], Working(n, byes[r]), all, scores);
      NotWorse(Total(ps, scores), Total(rounds[r], scores), passes);
      StepSplits(ps, Working(n, byes[r]), all, before - PairSet(rounds[r]));
      ReplaceRound(rounds, r, ps, before, all);
      OneMoreImproved(rounds, start, r, ps, before, scores);
      rounds := rounds[r := ps];
    }
  }

  lemma NoneImproved(start: Rounds, scores: Scores)
    ensures EachImproved(start, start, 0, scores)
  {
  }

  lemma OneMoreImproved(rounds: Rounds, start: Rounds, r: nat, ps: seq<Edge>, before: set<Edge>, scores: Scores)
    requires EachImproved(rounds, start, r, scores) && r < |start| && before == AllPairs(rounds)
    requires forall s :: r <= s < |start| ==> rounds[s] == start[s]
    requires Improved(start[r], before - PairSet(start[r]), ps, scores)
    ensures EachImproved(rounds[r := ps], start, r + 1, scores)
  {
    hide Improved, AllPairs, PairSet;
    var next := rounds[r := ps];
    assert rounds[..r] + start[r..] == rounds;
    forall s | 0 <= s <= r ensures next[..s] + start[s..] == rounds[..s] + start[s..] {
      assert next[..s] == rounds[..s];
    }
  }

  lemma RoundInAll(rounds: Rounds, r: int)
    requires 0 <= r < |rounds|
    ensures PairSet(rounds[r]) <= AllPairs(rounds)
  {
  }

  lemma NotWorse(total: real, before: real, passes: nat)
    requires total >= before + passes as real * TOLERANCE
    ensures total >= before
  {
  }

  lemma StepSplits(ps: seq<Edge>, w: set<int>, all: set<Edge>, others: set<Edge>)
    requires InStep(ps, w, all, PairSet(ps), others)
    ensures all == others + PairSet(ps) && others !! PairSet(ps) && IsRound(ps, w)
  {
  }
}

/**
 What one hardest-first greedy pass does: each pick recounted from scratch, although the code
 only decrements running counts.
 */
module Greedy {
  import opened Graph
  import opened Ranking
  import opened Recovery

  function Canon(p: int, q: int): Edge {
    if p < q then Edge(p, q) else Edge(q, p)
  }

  ghost predicate Ascending(ps: seq<Edge>) {
    forall k :: 0 <= k < |ps| ==> ps[k].a < ps[k].b
  }

  /** The running counts agree with a fresh count of allowed partners still in the round. */
  ghost predicate Recounted(count: map<int, int>, w: set<int>, f: Forbidden)
    requires InRange(w, |f|)
  {
    w <= count.Keys && forall c :: c in w ==> count[c] == Choices(w, f, c)
  }

  /** One end of e is the hardest person left, the other end that person's favourite. */
  ghost predicate GreedyPick(e: Edge, w: set<int>, f: Forbidden, scores: Scores)
    requires InRange(w, |f|) && Square(|f|, scores)
  {
    || (Hardest(e.a, w, f) && Favourite(e.b, e.a, w, f, scores[e.a]))
    || (Hardest(e.b, w, f) && Favourite(e.a, e.b, w, f, scores[e.b]))
  }

  /** Every pair was a greedy pick among the people the earlier pairs had left. */
  ghost predicate GreedyPicks(ps: seq<Edge>, w: set<int>, f: Forbidden, scores: Scores)
    requires InRange(w, |f|) && Square(|f|, scores)
  {
    forall k :: 0 <= k < |ps| ==> GreedyPick(ps[k], w - Ends(ps[..k]), f, scores)
  }

  /** The hardest person left has nobody left to meet. */
  ghost predicate Stranded(p: int, w: set<int>, f: Forbidden)
    requires InRange(w, |f|)
  {
    Hardest(p, w, f) && forall c :: c in w ==> !Allowed(f, p, c)
  }

  /** Where a greedy pass on `w`, started with forbidden sets f, stands after the pairs ps. */
  ghost predicate Underway(w: set<int>, f: Forbidden, ps: seq<Edge>, g: Forbidden, scores: Scores)
    requires InRange(w, |f|) && Square(|f|, scores)
  {
    Partial(ps, w, f) && Ascending(ps) && Records(f, ps, g) && SameRows(f, g, w - Ends(ps)) && GreedyPicks(ps, w, f, scores)
  }

  lemma ChoicesShrink(w: set<int>, f: Forbidden, p: int, q: int, c: int)
    requires 0 <= c < |f| && p in w && q in w && p != q && c in w && c != p && c != q
    ensures Choices(w - {p, q}, f, c) ==
            Choices(w, f, c) - (if p !in f[c] then 1 else 0) - (if q !in f[c] then 1 else 0)
  {
    var s := (w - {c}) - f[c];
    var t := s - {p};
    assert (w - {p, q} - {c}) - f[c] == t - {q};
  }

  /** Running counts after a pair leaves: one off for each of the two who was a choice. */
  method Decrement(count: map<int, int>, w: set<int>, p: int, q: int, g: Forbidden, ghost f: Forbidden)
    returns (out: map<int, int>)
    requires InRange(w, |f|) && p in w && q in w && p != q && Recounted(count, w, f) && SameRows(f, g, w)
    ensures Recounted(out, w - {p, q}, f)
  {
    hide Choices;
    out := count;
    var rest := w - {p, q};
    for c := 0 to |g|
      invariant rest <= out.Keys
      invariant forall d :: d in rest && d >= c ==> out[d] == count[d]
      invariant forall d :: d in rest && d < c ==> out[d] == Choices(rest, f, d)
    {
      if c in rest {
        ChoicesShrink(w, f, p, q, c);
        if p !in g[c] {
          out := out[c := out[c] - 1];
        }
        if q !in g[c] {
          out := out[c := out[c] - 1];
        }
      }
    }
  }

  lemma AdvancePicks(w: set<int>, f: Forbidden, ps: seq<Edge>, e: Edge, scores: Scores)
    requires InRange(w, |f|) && Square(|f|, scores) && GreedyPicks(ps, w, f, scores)
    requires GreedyPick(e, w - Ends(ps), f, scores)
    ensures GreedyPicks(ps + [e], w, f, scores)
  {
    var qs := ps + [e];
    forall k | 0 <= k < |qs| ensures GreedyPick(qs[k], w - Ends(qs[..k]), f, scores) {
      assert qs[..k] == ps[..k];
      if k == |ps| { assert ps[..k] == ps; }
    }
  }

  lemma AdvanceRecords(f: Forbidden, ps: seq<Edge>, g: Forbidden, p: int, q: int)
    requires Records(f, ps, g) && Allowed(g, p, q)
    ensures Records(f, ps + [Canon(p, q)], Mark(g, p, q))
  {
    forall i, j | 0 <= i < |g|
      ensures j in Mark(g, p, q)[i] <==> j in g[i] || Joins(Canon(p, q), i, j)
    {
    }
    RecordsAppend(f, ps, g, Canon(p, q), Mark(g, p, q));
  }

  lemma AdvanceRows(w: set<int>, f: Forbidden, ps: seq<Edge>, g: Forbidden, p: int, q: int)
    requires SameRows(f, g, w - Ends(ps)) && Allowed(g, p, q)
    ensures SameRows(f, Mark(g, p, q), w - (Ends(ps) + {p, q}))
  {
  }

  lemma PickFacts(w: set<int>, f: Forbidden, p: int, q: int, scores: Scores)
    requires InRange(w, |f|) && Square(|f|, scores) && Mutual(f)
    requires Hardest(p, w, f) && Favourite(q, p, w, f, scores[p])
    ensures p in w && q in w && Allowed(f, p, q) && Allowed(f, q, p)
  {
    assert p !in f[q];
  }

  lemma AdvancePartial(w: set<int>, f: Forbidden, ps: seq<Edge>, p: int, q: int)
    requires Partial(ps, w, f) && Ascending(ps)
    requires p in w - Ends(ps) && q in w - Ends(ps) && Allowed(f, p, q) && Allowed(f, q, p)
    ensures Partial(ps + [Canon(p, q)], w, f) && Ascending(ps + [Canon(p, q)])
    ensures Ends(ps + [Canon(p, q)]) == Ends(ps) + {p, q}
  {
    hide Allowed, Partial, Ends;
    var e := Canon(p, q);
    AddPartial(ps, w, f, e.a, e.b);
    assert {e.a, e.b} == {p, q};
    AllowedDiffer(f, p, q);
  }

  lemma AllowedDiffer(f: Forbidden, p: int, q: int)
    requires Allowed(f, p, q)
    ensures p != q
  {
  }

  /** A greedy pick keeps the pass on track. */
  lemma Advance(w: set<int>, f: Forbidden, ps: seq<Edge>, g: Forbidden, scores: Scores, p: int, q: int)
    requires InRange(w, |f|) && Square(|f|, scores) && Mutual(f) && Underway(w, f, ps, g, scores)
    requires Hardest(p, w - Ends(ps), f) && Favourite(q, p, w - Ends(ps), f, scores[p])
    ensures Underway(w, f, ps + [Canon(p, q)], Mark(g, p, q), scores)
    ensures Ends(ps + [Canon(p, q)]) == Ends(ps) + {p, q}
  {
    hide GreedyPicks, Hardest, Favourite, Records, Mutual, Partial, Ascending, Ends;
    PickFacts(w - Ends(ps), f, p, q, scores);
    AdvancePicks(w, f, ps, Canon(p, q), scores);
    AdvancePartial(w, f, ps, p, q);
    AdvanceRecords(f, ps, g, p, q);
    AdvanceRows(w, f, ps, g, p, q);
  }

  // ----- putting recovered pairs in ascending order

  function CanonAll(ps: seq<Edge>): (qs: seq<Edge>)
    ensures |qs| == |ps|
  {
    seq(|ps|, k requires 0 <= k < |ps| => Canon(ps[k].a, ps[k].b))
  }

  lemma {:induction false} CanonAllEnds(ps: seq<Edge>)
    ensures Ends(CanonAll(ps)) == Ends(ps)
  {
    if ps != [] {
      var init := ps[..|ps| - 1];
      CanonAllEnds(init);
      assert CanonAll(ps)[..|ps| - 1] == CanonAll(init);
    }
  }

  lemma CanonAllMatching(ps: seq<Edge>)
    requires IsMatching(ps)
    ensures IsMatching(CanonAll(ps)) && Ascending(CanonAll(ps))
  {
    var qs := CanonAll(ps);
    forall i, j | 0 <= i < j < |qs| ensures Apart(qs[i], qs[j]) {
      assert Apart(ps[i], ps[j]);
    }
  }

  lemma CanonAllMet(ps: seq<Edge>, i: int, j: int)
    ensures Met(CanonAll(ps), i, j) <==> Met(ps, i, j)
  {
    var qs := CanonAll(ps);
    if k :| 0 <= k < |ps| && Joins(ps[k], i, j) { assert Joins(qs[k], i, j); }
    if k :| 0 <= k < |qs| && Joins(qs[k], i, j) { assert Joins(ps[k], i, j); }
  }

  lemma CanonAllAvoids(ps: seq<Edge>, f: Forbidden)
    requires Mutual(f) && Avoids(ps, f)
    ensures Avoids(CanonAll(ps), f)
  {
    var qs := CanonAll(ps);
    forall k | 0 <= k < |qs| ensures Allowed(f, qs[k].a, qs[k].b) {
      assert Allowed(f, ps[k].a, ps[k].b);
      assert ps[k].a !in f[ps[k].b];
    }
  }

  lemma CanonAllRecords(ps: seq<Edge>, f: Forbidden, g: Forbidden)
    requires Records(f, ps, g)
    ensures Records(f, CanonAll(ps), g)
  {
    forall i, j | 0 <= i < |f| ensures j in g[i] <==> j in f[i] || Met(CanonAll(ps), i, j) {
      CanonAllMet(ps, i, j);
    }
  }
}

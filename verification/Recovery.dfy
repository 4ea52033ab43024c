/**
 The bounded backtracking search that repairs a round after the greedy pass ran into a dead end.
 It marks pairs in the shared forbidden sets as it goes and takes the marks back when it retreats.
 */
module Recovery {
  import opened Graph
  import opened Ranking

  const MAX_RECOVERY_NODES: nat := 10_000

  /** Rows of people still to be placed are untouched by pairs that were placed before. */
  ghost predicate SameRows(f: Forbidden, g: Forbidden, w: set<int>) {
    |f| == |g| && forall i :: i in w && 0 <= i < |f| ==> f[i] == g[i]
  }

  function Mark(f: Forbidden, p: int, q: int): (g: Forbidden)
    requires 0 <= p < |f| && 0 <= q < |f|
    ensures |g| == |f|
  {
    var g := f[p := f[p] + {q}];
    g[q := g[q] + {p}]
  }

  function Unmark(f: Forbidden, p: int, q: int): (g: Forbidden)
    requires 0 <= p < |f| && 0 <= q < |f|
    ensures |g| == |f|
  {
    var g := f[p := f[p] - {q}];
    g[q := g[q] - {p}]
  }

  lemma UnmarkUndoesMark(f: Forbidden, p: int, q: int)
    requires Mutual(f) && Allowed(f, p, q)
    ensures Unmark(Mark(f, p, q), p, q) == f
  {
    assert p !in f[q];
    assert f[p] + {q} - {q} == f[p];
    assert f[q] + {p} - {p} == f[q];
  }

  /** Marking a pair is recording the one-pair round that consists of it. */
  lemma MarkRecords(f: Forbidden, p: int, q: int)
    requires Allowed(f, p, q)
    ensures Records(f, [Edge(p, q)], Mark(f, p, q))
  {
    var ps := [Edge(p, q)];
    forall i, j ensures Met(ps, i, j) <==> Joins(Edge(p, q), i, j) {
      if Joins(Edge(p, q), i, j) { assert Joins(ps[0], i, j); }
    }
  }

  lemma MarkIsMutual(f: Forbidden, p: int, q: int)
    requires Mutual(f) && Allowed(f, p, q)
    ensures Mutual(Mark(f, p, q))
  {
    MarkRecords(f, p, q);
    RecordsKeepsMutual(f, [Edge(p, q)], Mark(f, p, q));
  }

  lemma AvoidsSameRows(ps: seq<Edge>, w: set<int>, f: Forbidden, g: Forbidden)
    requires Ends(ps) <= w && SameRows(f, g, w) && Avoids(ps, f)
    ensures Avoids(ps, g)
  {
    forall k | 0 <= k < |ps| ensures Allowed(g, ps[k].a, ps[k].b) {
      EndsMember(ps, ps[k].a);
      assert Touches(ps[k], ps[k].a);
      assert Allowed(f, ps[k].a, ps[k].b);
    }
  }

  lemma HasPerfectSameRows(w: set<int>, f: Forbidden, g: Forbidden)
    requires SameRows(f, g, w)
    ensures HasPerfect(w, f) <==> HasPerfect(w, g)
  {
    if ps: seq<Edge> :| PerfectOn(ps, w) && Avoids(ps, f) {
      AvoidsSameRows(ps, w, f, g);
    }
    if ps: seq<Edge> :| PerfectOn(ps, w) && Avoids(ps, g) {
      AvoidsSameRows(ps, w, g, f);
    }
  }

  /** Whoever is placed next, some allowed partner leaves a solvable rest. */
  lemma SomeBranchLives(w: set<int>, f: Forbidden, p: int) returns (q: int)
    requires Mutual(f) && HasPerfect(w, f) && p in w
    ensures q in w && Allowed(f, p, q) && HasPerfect(w - {p, q}, f)
  {
    var ps: seq<Edge> :| PerfectOn(ps, w) && Avoids(ps, f);
    EndsMember(ps, p);
    var k :| 0 <= k < |ps| && Touches(ps[k], p);
    q := if ps[k].a == p then ps[k].b else ps[k].a;
    EndsMember(ps, q);
    assert Touches(ps[k], q) && Allowed(f, ps[k].a, ps[k].b);
    RemoveEdge(ps, k);
    var rest := Without(ps, k);
    assert {ps[k].a, ps[k].b} == {p, q};
    assert Avoids(rest, f);
    assert PerfectOn(rest, w - {p, q});
  }

  /**
   What the search returns: the hardest person gets the best-scored partner that does not lead
   to a dead end, and the rest is solved the same way.
   */
  ghost predicate BestFirst(ps: seq<Edge>, w: set<int>, f: Forbidden, scores: Scores)
    requires InRange(w, |f|) && Square(|f|, scores)
  {
    ps == [] ||
    (var p, q := ps[0].a, ps[0].b;
     && Hardest(p, w, f)
     && DeadBefore(p, q, w, f, scores)
     && BestFirst(ps[1..], w - {p, q}, f, scores))
  }

  ghost predicate DeadBefore(p: int, q: int, w: set<int>, f: Forbidden, scores: Scores)
    requires 0 <= p < |scores|
  {
    forall c :: c in w && Allowed(f, p, c) && Better(scores[p], c, q) ==> !HasPerfect(w - {p, c}, f)
  }

  /** `ps` solves `w` under `f`, is the best-first solution, and `g` records it on top of `f`. */
  ghost predicate Solves(ps: seq<Edge>, w: set<int>, f: Forbidden, g: Forbidden, scores: Scores)
    requires InRange(w, |f|) && Square(|f|, scores)
  {
    PerfectOn(ps, w) && Avoids(ps, f) && Records(f, ps, g) && BestFirst(ps, w, f, scores)
  }

  lemma {:induction false} BestFirstSameRows(ps: seq<Edge>, w: set<int>, f: Forbidden, g: Forbidden, scores: Scores)
    requires InRange(w, |f|) && Square(|f|, scores) && SameRows(f, g, w)
    requires BestFirst(ps, w, f, scores)
    ensures BestFirst(ps, w, g, scores)
  {
    if ps != [] {
      var p, q := ps[0].a, ps[0].b;
      assert Hardest(p, w, g) by {
        forall c | c in w ensures Choices(w, f, c) == Choices(w, g, c) {}
      }
      forall c | c in w && Allowed(g, p, c) && Better(scores[p], c, q) ensures !HasPerfect(w - {p, c}, g) {
        assert Allowed(f, p, c);
        HasPerfectSameRows(w - {p, c}, f, g);
      }
      BestFirstSameRows(ps[1..], w - {p, q}, f, g, scores);
    }
  }

  lemma ExtendBestFirst(p: int, q: int, rest: seq<Edge>, w: set<int>, f: Forbidden, scores: Scores)
    requires InRange(w, |f|) && Square(|f|, scores)
    requires Hardest(p, w, f) && q in w && Allowed(f, p, q) && DeadBefore(p, q, w, f, scores)
    requires BestFirst(rest, w - {p, q}, Mark(f, p, q), scores)
    ensures BestFirst([Edge(p, q)] + rest, w, f, scores)
  {
    hide Hardest, DeadBefore, HasPerfect;
    BestFirstSameRows(rest, w - {p, q}, Mark(f, p, q), f, scores);
    assert ([Edge(p, q)] + rest)[1..] == rest;
  }

  lemma ExtendAvoids(p: int, q: int, rest: seq<Edge>, v: set<int>, f: Forbidden)
    requires Allowed(f, p, q) && p !in v && q !in v
    requires Ends(rest) == v && Avoids(rest, Mark(f, p, q))
    ensures Avoids([Edge(p, q)] + rest, f)
  {
    AvoidsSameRows(rest, v, Mark(f, p, q), f);
  }

  /** Putting the pair just tried in front of a solution of the rest solves the whole. */
  lemma Extend(p: int, q: int, rest: seq<Edge>, w: set<int>, f: Forbidden, h: Forbidden, scores: Scores)
    requires InRange(w, |f|) && Square(|f|, scores)
    requires Hardest(p, w, f) && q in w && Allowed(f, p, q) && DeadBefore(p, q, w, f, scores)
    requires Solves(rest, w - {p, q}, Mark(f, p, q), h, scores)
    ensures Solves([Edge(p, q)] + rest, w, f, h, scores)
  {
    ExtendPerfect(Edge(p, q), rest, w);
    ExtendAvoids(p, q, rest, w - {p, q}, f);
    ExtendBestFirst(p, q, rest, w, f, scores);
    MarkRecords(f, p, q);
    RecordsTwice(f, [Edge(p, q)], Mark(f, p, q), rest, h);
  }

  lemma ExtendPerfect(e: Edge, rest: seq<Edge>, w: set<int>)
    requires e.a in w && e.b in w && e.a != e.b && PerfectOn(rest, w - {e.a, e.b})
    ensures PerfectOn([e] + rest, w)
  {
    var ps := [e] + rest;
    assert Ends([e]) == {e.a, e.b} by { assert [e][..0] == []; }
    EndsConcat([e], rest);
    forall j | 0 < j < |ps| ensures Apart(ps[0], ps[j]) {
      EndsMember(rest, ps[j].a);
      EndsMember(rest, ps[j].b);
      assert ps[j] == rest[j - 1] && Touches(rest[j - 1], ps[j].a) && Touches(rest[j - 1], ps[j].b);
    }
    forall i, j | 0 < i < j < |ps| ensures Apart(ps[i], ps[j]) {
      assert ps[i] == rest[i - 1] && ps[j] == rest[j - 1];
    }
  }

  lemma MetConcat(ps: seq<Edge>, qs: seq<Edge>, i: int, j: int)
    ensures Met(ps + qs, i, j) <==> Met(ps, i, j) || Met(qs, i, j)
  {
    var all := ps + qs;
    if k :| 0 <= k < |ps| && Joins(ps[k], i, j) { assert Joins(all[k], i, j); }
    if k :| 0 <= k < |qs| && Joins(qs[k], i, j) { assert Joins(all[|ps| + k], i, j); }
    if k :| 0 <= k < |all| && Joins(all[k], i, j) {
      assert if k < |ps| then Joins(ps[k], i, j) else Joins(qs[k - |ps|], i, j);
    }
  }

  lemma RecordsTwice(f: Forbidden, ps: seq<Edge>, g: Forbidden, qs: seq<Edge>, h: Forbidden)
    requires Records(f, ps, g) && Records(g, qs, h)
    ensures Records(f, ps + qs, h)
  {
    forall i, j | 0 <= i < |f| ensures j in h[i] <==> j in f[i] || Met(ps + qs, i, j) {
      MetConcat(ps, qs, i, j);
      assert j in g[i] <==> j in f[i] || Met(ps, i, j);
    }
  }

  // ----- the node budget

  /** s people: at most s*s/4 further calls are made once the budget is used up. */
  ghost predicate WithinCalls(nodes: int, s: nat) {
    nodes <= MAX_RECOVERY_NODES || 4 * (nodes - MAX_RECOVERY_NODES) <= s * s
  }

  /** The same while t of the candidates of a frame with s people have been tried. */
  ghost predicate WithinFrame(nodes: int, s: int, t: int) {
    nodes <= MAX_RECOVERY_NODES || 4 * (nodes - MAX_RECOVERY_NODES - t) <= (s - 2) * (s - 2)
  }

  lemma FrameDone(nodes: int, s: nat, t: int)
    requires WithinFrame(nodes, s, t) && t <= s - 1
    ensures WithinCalls(nodes, s)
  {
    assert (s - 2) * (s - 2) + 4 * (s - 1) == s * s;
  }

  lemma FrameStep(before: int, after: int, s: nat, t: nat)
    requires s >= 2 && WithinFrame(before, s, t)
    requires before >= MAX_RECOVERY_NODES ==> after == before + 1
    requires before < MAX_RECOVERY_NODES ==> WithinCalls(after, s - 2)
    ensures WithinFrame(after, s, t + 1)
  {
    assert (s - 2) * (s - 2) >= 0;
  }

  /** The most calls that a search over s people can make when nothing cuts it short. */
  function Tree(s: nat): (calls: nat)
    ensures calls >= 1
  {
    if s <= 1 then 1 else 1 + (s - 1) * Tree(s - 2)
  }

  /** At most this many calls were made while t candidates of a frame with s people were tried. */
  ghost predicate Searched(before: int, nodes: int, s: nat, t: nat) {
    nodes <= before + (if s <= 1 then 0 else t * Tree(s - 2))
  }

  lemma SearchedStep(before: int, nodes: int, after: int, s: nat, t: nat)
    requires s >= 2 && Searched(before, nodes, s, t) && after <= nodes + Tree(s - 2)
    ensures Searched(before, after, s, t + 1)
  {
  }

  lemma SearchedMore(before: int, nodes: int, s: nat, t: nat, u: nat)
    requires Searched(before, nodes, s, t) && t <= u
    ensures Searched(before, nodes, s, u)
  {
    if s >= 2 {
      Times(t, u, Tree(s - 2));
    }
  }

  lemma Times(t: nat, u: nat, x: nat)
    requires t <= u
    ensures t * x <= u * x
  {
  }

  lemma SearchedDone(before: int, nodes: int, s: nat, t: nat)
    requires Searched(before, nodes, s, t) && t <= s - 1
    ensures nodes + 1 <= before + Tree(s)
  {
    if s >= 2 {
      Times(t, s - 1, Tree(s - 2));
    }
  }

  /** Up to ten people the budget is more than any search can need. */
  lemma SmallTrees(s: nat)
    requires s <= 10 && s % 2 == 0
    ensures Tree(s) <= MAX_RECOVERY_NODES
  {
    assert Tree(2) == 2 && Tree(4) == 7 && Tree(6) == 36 && Tree(8) == 253 && Tree(10) == 2278;
  }
}

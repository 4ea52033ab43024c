/**
 Participants are ranks 0..n-1 and `forbidden[i]` holds the ranks that i may not meet.
 A round is a perfect matching of its working set that avoids the forbidden partners.
 */
module Graph {
  import opened Sets

  datatype Edge = Edge(a: int, b: int)

  type Forbidden = seq<set<int>>

  /** Nobody forbids himself and forbidding is mutual. */
  ghost predicate Mutual(f: Forbidden) {
    forall i, j {:trigger j in f[i]} {:trigger MutualAt(f, i, j)} :: 0 <= i < |f| ==> MutualAt(f, i, j)
  }

  predicate MutualAt(f: Forbidden, i: int, j: int)
    requires 0 <= i < |f|
  {
    j in f[i] ==> 0 <= j < |f| && i != j && i in f[j]
  }

  predicate Allowed(f: Forbidden, i: int, j: int) {
    0 <= i < |f| && 0 <= j < |f| && i != j && j !in f[i]
  }

  predicate Apart(e: Edge, g: Edge) {
    e.a != g.a && e.a != g.b && e.b != g.a && e.b != g.b
  }

  predicate Touches(e: Edge, x: int) {
    x == e.a || x == e.b
  }

  predicate Joins(e: Edge, i: int, j: int) {
    e == Edge(i, j) || e == Edge(j, i)
  }

  predicate IsMatching(ps: seq<Edge>) {
    && (forall i :: 0 <= i < |ps| ==> ps[i].a != ps[i].b)
    && (forall i, j :: 0 <= i < j < |ps| ==> Apart(ps[i], ps[j]))
  }

  /** Everyone who appears in `ps`. */
  function Ends(ps: seq<Edge>): set<int> {
    if ps == [] then {} else Ends(ps[..|ps| - 1]) + {ps[|ps| - 1].a, ps[|ps| - 1].b}
  }

  predicate PerfectOn(ps: seq<Edge>, w: set<int>) {
    IsMatching(ps) && Ends(ps) == w
  }

  predicate Avoids(ps: seq<Edge>, f: Forbidden) {
    forall k :: 0 <= k < |ps| ==> Allowed(f, ps[k].a, ps[k].b)
  }

  ghost predicate HasPerfect(w: set<int>, f: Forbidden) {
    exists ps: seq<Edge> :: PerfectOn(ps, w) && Avoids(ps, f)
  }

  predicate Met(ps: seq<Edge>, i: int, j: int) {
    exists k :: 0 <= k < |ps| && Joins(ps[k], i, j)
  }

  /** `g` is `f` with the pairs of `ps` recorded in both directions, and nothing else. */
  ghost predicate Records(f: Forbidden, ps: seq<Edge>, g: Forbidden) {
    && |g| == |f|
    && forall i, j :: 0 <= i < |f| ==> (j in g[i] <==> j in f[i] || Met(ps, i, j))
  }

  // ----- who takes part in a matching

  lemma {:induction false} EndsMember(ps: seq<Edge>, x: int)
    ensures x in Ends(ps) <==> exists i :: 0 <= i < |ps| && Touches(ps[i], x)
  {
    if ps != [] {
      EndsMember(ps[..|ps| - 1], x);
      assert Touches(ps[|ps| - 1], x) <==> x in {ps[|ps| - 1].a, ps[|ps| - 1].b};
    }
  }

  lemma {:induction false} EndsConcat(ps: seq<Edge>, qs: seq<Edge>)
    ensures Ends(ps + qs) == Ends(ps) + Ends(qs)
  {
    if qs == [] {
      assert ps + qs == ps;
    } else {
      EndsConcat(ps, qs[..|qs| - 1]);
      assert (ps + qs)[..|ps + qs| - 1] == ps + qs[..|qs| - 1];
    }
  }

  lemma {:induction false} EndsCard(ps: seq<Edge>)
    requires IsMatching(ps)
    ensures |Ends(ps)| == 2 * |ps|
  {
    if |ps| > 0 {
      var last := ps[|ps| - 1];
      var rest := ps[..|ps| - 1];
      EndsCard(rest);
      EndsMember(rest, last.a);
      EndsMember(rest, last.b);
      assert Ends(ps) == Ends(rest) + {last.a} + {last.b};
    }
  }

  /** A pair of two people who are still free can be added. */
  lemma AddEdge(ps: seq<Edge>, e: Edge)
    requires IsMatching(ps) && e.a != e.b && e.a !in Ends(ps) && e.b !in Ends(ps)
    ensures IsMatching(ps + [e]) && Ends(ps + [e]) == Ends(ps) + {e.a, e.b}
  {
    var qs := ps + [e];
    assert qs[..|qs| - 1] == ps;
    forall i | 0 <= i < |ps| ensures Apart(ps[i], e) {
      EndsMember(ps, e.a);
      EndsMember(ps, e.b);
      assert !Touches(ps[i], e.a) && !Touches(ps[i], e.b);
    }
  }

  function Without(ps: seq<Edge>, k: nat): seq<Edge>
    requires k < |ps|
  {
    ps[..k] + ps[k + 1..]
  }

  lemma GoneFromRest(ps: seq<Edge>, k: nat, x: int)
    requires IsMatching(ps) && k < |ps| && Touches(ps[k], x)
    ensures x !in Ends(Without(ps, k))
  {
    var rest := Without(ps, k);
    EndsMember(rest, x);
    forall i | 0 <= i < |rest| ensures !Touches(rest[i], x) {
      if i < k {
        assert rest[i] == ps[i] && Apart(ps[i], ps[k]);
      } else {
        assert rest[i] == ps[i + 1] && Apart(ps[k], ps[i + 1]);
      }
    }
  }

  lemma WithoutIsMatching(ps: seq<Edge>, k: nat)
    requires IsMatching(ps) && k < |ps|
    ensures IsMatching(Without(ps, k))
  {
    var rest := Without(ps, k);
    forall i, j | 0 <= i < j < |rest| ensures Apart(rest[i], rest[j]) {
      var i', j' := if i < k then i else i + 1, if j < k then j else j + 1;
      assert rest[i] == ps[i'] && rest[j] == ps[j'];
    }
  }

  /** Taking one pair out frees exactly its two ends. */
  lemma RemoveEdge(ps: seq<Edge>, k: nat)
    requires IsMatching(ps) && k < |ps|
    ensures IsMatching(Without(ps, k))
    ensures Ends(Without(ps, k)) == Ends(ps) - {ps[k].a, ps[k].b}
  {
    hide Ends, IsMatching, Without;
    WithoutIsMatching(ps, k);
    EndsAround(ps, k);
    GoneFromRest(ps, k, ps[k].a);
    GoneFromRest(ps, k, ps[k].b);
  }

  lemma EndsAround(ps: seq<Edge>, k: nat)
    requires k < |ps|
    ensures Ends(ps) == Ends(Without(ps, k)) + {ps[k].a, ps[k].b}
  {
    hide Ends;
    var e, pre, post := ps[k], ps[..k], ps[k + 1..];
    EndsOfOne(e);
    EndsConcat(pre, post);
    EndsConcat(pre + [e], post);
    EndsConcat(pre, [e]);
    assert ps == pre + [e] + post;
    Reorder(Ends(pre), {e.a, e.b}, Ends(post));
  }

  lemma EndsOfOne(e: Edge)
    ensures Ends([e]) == {e.a, e.b}
  {
    assert [e][..0] == [];
  }

  lemma Reorder(x: set<int>, y: set<int>, z: set<int>)
    ensures x + y + z == x + z + y
  {
  }

  // ----- recording a round in the forbidden sets

  lemma RecordsIsMutualAt(f: Forbidden, ps: seq<Edge>, g: Forbidden, i: int, j: int)
    requires Mutual(f) && Avoids(ps, f) && Records(f, ps, g)
    requires 0 <= i < |g| && j in g[i]
    ensures 0 <= j < |g| && i != j && i in g[j]
  {
    if j in f[i] {
      assert i in f[j];
    } else {
      assert Met(ps, i, j);
      var k :| 0 <= k < |ps| && Joins(ps[k], i, j);
      assert Allowed(f, ps[k].a, ps[k].b);
      assert Joins(ps[k], j, i);
      assert Met(ps, j, i);
    }
  }

  lemma RecordsKeepsMutual(f: Forbidden, ps: seq<Edge>, g: Forbidden)
    requires Mutual(f) && Avoids(ps, f) && Records(f, ps, g)
    ensures Mutual(g)
  {
    hide Records, Avoids;
    forall i, j | 0 <= i < |g| ensures MutualAt(g, i, j) {
      if j in g[i] {
        RecordsIsMutualAt(f, ps, g, i, j);
      }
    }
  }

  /** A matching gives everyone at most one new partner. */
  lemma RecordsCard(f: Forbidden, ps: seq<Edge>, g: Forbidden, i: int)
    requires IsMatching(ps) && Records(f, ps, g) && 0 <= i < |f|
    ensures |g[i]| <= |f[i]| + 1
  {
    if p :| Met(ps, i, p) {
      var k :| 0 <= k < |ps| && Joins(ps[k], i, p);
      forall q | Met(ps, i, q) ensures q == p {
        var l :| 0 <= l < |ps| && Joins(ps[l], i, q);
        assert !Apart(ps[k], ps[l]) && !Apart(ps[l], ps[k]);
        assert k == l;
      }
      forall q | q in g[i] ensures q in f[i] + {p} {
        assert q in f[i] || Met(ps, i, q);
      }
      SubsetCard(g[i], f[i] + {p});
    } else {
      forall q ensures q in g[i] <==> q in f[i] {
        assert !Met(ps, i, q);
      }
      assert g[i] == f[i];
    }
  }

  lemma RecordsAppend(f: Forbidden, ps: seq<Edge>, g: Forbidden, e: Edge, h: Forbidden)
    requires Records(f, ps, g) && |h| == |g|
    requires forall i, j :: 0 <= i < |g| ==> (j in h[i] <==> j in g[i] || Joins(e, i, j))
    ensures Records(f, ps + [e], h)
  {
    forall i, j | 0 <= i < |f|
      ensures j in h[i] <==> j in f[i] || Met(ps + [e], i, j)
    {
      MetAppend(ps, e, i, j);
    }
  }

  lemma MetAppend(ps: seq<Edge>, e: Edge, i: int, j: int)
    ensures Met(ps + [e], i, j) <==> Met(ps, i, j) || Joins(e, i, j)
  {
    var qs := ps + [e];
    assert qs[|ps|] == e;
    if k :| 0 <= k < |ps| && Joins(ps[k], i, j) {
      assert Joins(qs[k], i, j);
    }
    if k :| 0 <= k < |qs| && Joins(qs[k], i, j) && k < |ps| {
      assert Joins(ps[k], i, j);
    }
  }

  // ----- the order of the pairs does not matter

  lemma {:induction false} OnceInMatching(ps: seq<Edge>, e: Edge)
    requires IsMatching(ps)
    ensures multiset(ps)[e] <= 1
  {
    if |ps| > 0 {
      var last := ps[|ps| - 1];
      var rest := ps[..|ps| - 1];
      assert ps == rest + [last];
      OnceInMatching(rest, e);
      if e == last {
        assert e !in rest;
        assert e !in multiset(rest);
      }
    }
  }

  lemma MatchingPermutes(ps: seq<Edge>, qs: seq<Edge>)
    requires IsMatching(ps) && multiset(ps) == multiset(qs)
    ensures IsMatching(qs)
  {
    forall i | 0 <= i < |qs| ensures qs[i].a != qs[i].b {
      var k := IndexIn(ps, qs, i);
    }
    forall i, j | 0 <= i < j < |qs| ensures Apart(qs[i], qs[j]) {
      var k := IndexIn(ps, qs, i);
      var l := IndexIn(ps, qs, j);
      if k == l {
        TwiceInSeq(qs, i, j);
        OnceInMatching(ps, qs[i]);
      } else {
        assert if k < l then Apart(ps[k], ps[l]) else Apart(ps[l], ps[k]);
      }
    }
  }

  lemma EndsPermute(ps: seq<Edge>, qs: seq<Edge>)
    requires multiset(ps) == multiset(qs)
    ensures Ends(ps) == Ends(qs)
  {
    forall x ensures x in Ends(ps) <==> x in Ends(qs) {
      EndsMember(ps, x);
      EndsMember(qs, x);
      if i :| 0 <= i < |ps| && Touches(ps[i], x) {
        var k := IndexIn(qs, ps, i);
        assert Touches(qs[k], x);
      }
      if i :| 0 <= i < |qs| && Touches(qs[i], x) {
        var k := IndexIn(ps, qs, i);
        assert Touches(ps[k], x);
      }
    }
  }

  // ----- when does a perfect matching exist?

  function Neighbours(w: set<int>, f: Forbidden, i: int): set<int> {
    set j | j in w && Allowed(f, i, j)
  }

  /** An edge whose two ends can be handed to two people left over, one each. */
  predicate Exchange(e: Edge, nu: set<int>, nv: set<int>) {
    (e.a in nu && e.b in nv) || (e.b in nu && e.a in nv)
  }

  /** Without such an edge the two neighbourhoods together meet each edge at most twice. */
  lemma {:induction false} ExchangeCount(ps: seq<Edge>, nu: set<int>, nv: set<int>)
    requires IsMatching(ps) && nu <= Ends(ps) && nv <= Ends(ps)
    requires forall i :: 0 <= i < |ps| ==> !Exchange(ps[i], nu, nv)
    ensures |nu| + |nv| <= 2 * |ps|
  {
    if |ps| > 0 {
      var last := ps[|ps| - 1];
      ExchangeCount(ps[..|ps| - 1], nu - {last.a, last.b}, nv - {last.a, last.b});
      CutCard(nu, last.a, last.b);
      CutCard(nv, last.a, last.b);
      assert !Exchange(last, nu, nv);
    } else {
      assert nu == {} && nv == {};
    }
  }

  /** A partial round inside `w` that respects the forbidden sets. */
  ghost predicate Partial(ps: seq<Edge>, w: set<int>, f: Forbidden) {
    IsMatching(ps) && Avoids(ps, f) && Ends(ps) <= w
  }

  lemma AddPartial(ps: seq<Edge>, w: set<int>, f: Forbidden, u: int, x: int)
    requires Partial(ps, w, f) && u in w - Ends(ps) && x in w - Ends(ps) && Allowed(f, u, x)
    ensures Partial(ps + [Edge(u, x)], w, f)
    ensures Ends(ps + [Edge(u, x)]) == Ends(ps) + {u, x}
  {
    hide Ends, IsMatching, Avoids;
    AddEdge(ps, Edge(u, x));
    AvoidsAppend(ps, Edge(u, x), f);
  }

  lemma AvoidsAppend(ps: seq<Edge>, e: Edge, f: Forbidden)
    requires Avoids(ps, f) && Allowed(f, e.a, e.b)
    ensures Avoids(ps + [e], f)
  {
  }

  lemma AvoidsWithout(ps: seq<Edge>, k: nat, f: Forbidden)
    requires Avoids(ps, f) && k < |ps|
    ensures Avoids(Without(ps, k), f)
  {
  }

  lemma EndOf(ps: seq<Edge>, k: nat, x: int)
    requires k < |ps| && Touches(ps[k], x)
    ensures x in Ends(ps)
  {
    EndsMember(ps, x);
  }

  /** u and v are free, x and y are paired: pair u with x and v with y instead. */
  lemma Reroute(ps: seq<Edge>, w: set<int>, f: Forbidden, k: nat, u: int, v: int, x: int, y: int)
    returns (qs: seq<Edge>)
    requires Partial(ps, w, f) && k < |ps| && Joins(ps[k], x, y)
    requires u in w - Ends(ps) && v in w - Ends(ps) && u != v
    requires Allowed(f, u, x) && Allowed(f, v, y)
    ensures |qs| == |ps| + 1 && Partial(qs, w, f)
  {
    hide Ends, IsMatching, Avoids, Allowed;
    var rest := Without(ps, k);
    RemoveEdge(ps, k);
    AvoidsWithout(ps, k, f);
    EndOf(ps, k, x);
    EndOf(ps, k, y);
    JoinedDiffer(ps, k);
    AddPartial(rest, w, f, u, x);
    AddPartial(rest + [Edge(u, x)], w, f, v, y);
    qs := rest + [Edge(u, x)] + [Edge(v, y)];
  }

  lemma JoinedDiffer(ps: seq<Edge>, k: nat)
    requires IsMatching(ps) && k < |ps|
    ensures ps[k].a != ps[k].b
  {
  }

  lemma FindExchange(ps: seq<Edge>, nu: set<int>, nv: set<int>) returns (k: nat)
    requires IsMatching(ps) && nu <= Ends(ps) && nv <= Ends(ps)
    requires |nu| + |nv| > 2 * |ps|
    ensures k < |ps| && Exchange(ps[k], nu, nv)
  {
    if forall i :: 0 <= i < |ps| ==> !Exchange(ps[i], nu, nv) {
      ExchangeCount(ps, nu, nv);
      assert false;
    }
    k :| 0 <= k < |ps| && Exchange(ps[k], nu, nv);
  }

  lemma TwoFree(ps: seq<Edge>, w: set<int>) returns (u: int, v: int)
    requires IsMatching(ps) && Ends(ps) <= w && |w| >= 2 * |ps| + 2
    ensures u in w - Ends(ps) && v in w - Ends(ps) && u != v
  {
    EndsCard(ps);
    var free := w - Ends(ps);
    assert w == free + Ends(ps);
    assert |w| == |free| + |Ends(ps)|;
    u := Pick(free);
    v := Pick(free - {u});
  }

  /** A partial round that does not yet cover all 2m people can be made one pair longer. */
  lemma Grow(ps: seq<Edge>, w: set<int>, f: Forbidden, m: nat) returns (qs: seq<Edge>)
    requires |w| == 2 * m && |ps| < m && Partial(ps, w, f)
    requires forall i :: i in w ==> 0 <= i < |f| && |Neighbours(w, f, i)| >= m
    ensures |qs| == |ps| + 1 && Partial(qs, w, f)
  {
    var u, v := TwoFree(ps, w);
    var nu, nv := Neighbours(w, f, u), Neighbours(w, f, v);
    if x :| x in nu && x !in Ends(ps) {
      AddPartial(ps, w, f, u, x);
      qs := ps + [Edge(u, x)];
    } else if x :| x in nv && x !in Ends(ps) {
      AddPartial(ps, w, f, v, x);
      qs := ps + [Edge(v, x)];
    } else {
      var k := FindExchange(ps, nu, nv);
      if ps[k].a in nu && ps[k].b in nv {
        qs := Reroute(ps, w, f, k, u, v, ps[k].a, ps[k].b);
      } else {
        qs := Reroute(ps, w, f, k, u, v, ps[k].b, ps[k].a);
      }
    }
  }

  /** 2m people who may each meet at least m of the others can all be paired at once. */
  lemma DenseHasPerfect(w: set<int>, f: Forbidden, m: nat)
    requires |w| == 2 * m
    requires forall i :: i in w ==> 0 <= i < |f| && |Neighbours(w, f, i)| >= m
    ensures HasPerfect(w, f)
  {
    var ps: seq<Edge> := [];
    while |ps| < m
      invariant |ps| <= m && Partial(ps, w, f)
      decreases m - |ps|
    {
      ps := Grow(ps, w, f, m);
    }
    EndsCard(ps);
    SubsetCard(Ends(ps), w);
    assert PerfectOn(ps, w);
  }

  /** If nobody in the working set of 2m has m or more past partners, a round exists. */
  lemma FewPartnersHasPerfect(w: set<int>, f: Forbidden, m: nat)
    requires |w| == 2 * m
    requires forall i :: i in w ==> 0 <= i < |f| && |f[i]| < m
    ensures HasPerfect(w, f)
  {
    forall i | i in w ensures |Neighbours(w, f, i)| >= m {
      FewPartnersDegree(w, f, m, i);
    }
    DenseHasPerfect(w, f, m);
  }

  lemma FewPartnersDegree(w: set<int>, f: Forbidden, m: nat, i: int)
    requires |w| == 2 * m && i in w
    requires forall j :: j in w ==> 0 <= j < |f|
    requires |f[i]| < m
    ensures |Neighbours(w, f, i)| >= m
  {
    var nb := Neighbours(w, f, i);
    var rest := w - nb;
    assert |w| == |nb| + |rest| by { assert w == nb + rest; }
    assert rest <= f[i] + {i};
    SubsetCard(rest, f[i] + {i});
  }
}

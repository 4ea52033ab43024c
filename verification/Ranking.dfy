/**
 The two orders the engine chooses by: who is hardest to place in the current round, and which
 partner somebody likes best.
 */
module Ranking {
  import opened Graph

  type Scores = seq<seq<real>>

  predicate Square(n: nat, scores: Scores) {
    |scores| == n && forall i :: 0 <= i < n ==> |scores[i]| == n
  }

  /** c scores higher than d in this row; equal scores go to the smaller rank. */
  predicate Better(row: seq<real>, c: int, d: int) {
    0 <= c < |row| && 0 <= d < |row| && (row[c] > row[d] || (row[c] == row[d] && c < d))
  }

  /** `list` names everyone but p exactly once, best score first. */
  ghost predicate RankedFor(list: seq<int>, n: nat, p: int, row: seq<real>) {
    && (forall x :: x in list <==> 0 <= x < n && x != p)
    && (forall i, j :: 0 <= i < j < |list| ==> Better(row, list[i], list[j]))
  }

  ghost predicate AllRanked(lists: seq<seq<int>>, n: nat, scores: Scores) {
    |lists| == n && Square(n, scores) && forall p :: 0 <= p < n ==> RankedFor(lists[p], n, p, scores[p])
  }

  /** How many of `w` could still be paired with c. */
  function Choices(w: set<int>, f: Forbidden, c: int): nat
    requires 0 <= c < |f|
  {
    |(w - {c}) - f[c]|
  }

  ghost predicate InRange(w: set<int>, n: nat) {
    forall c :: c in w ==> 0 <= c < n
  }

  /** p has the fewest choices in `w`; ties go to the smaller rank. */
  ghost predicate Hardest(p: int, w: set<int>, f: Forbidden)
    requires InRange(w, |f|)
  {
    p in w && forall c :: c in w ==> Choices(w, f, p) < Choices(w, f, c) || (Choices(w, f, p) == Choices(w, f, c) && p <= c)
  }

  /** q is the allowed partner in `w` that p scores highest with. */
  ghost predicate Favourite(q: int, p: int, w: set<int>, f: Forbidden, row: seq<real>) {
    q in w && Allowed(f, p, q) && forall c :: c in w && Allowed(f, p, c) && c != q ==> Better(row, q, c)
  }

  /** Python's min over a set of ranks with key (count[c], c). */
  method MinByCount(w: set<int>, n: nat, count: map<int, int>) returns (p: int)
    requires w != {} && InRange(w, n) && w <= count.Keys
    ensures p in w
    ensures forall c :: c in w ==> count[p] < count[c] || (count[p] == count[c] && p <= c)
  {
    p := -1;
    for c := 0 to n
      invariant p == -1 ==> forall d :: d in w ==> c <= d
      invariant p != -1 ==> p in w && p < c
      invariant p != -1 ==> forall d :: d in w && d < c ==> count[p] < count[d] || (count[p] == count[d] && p <= d)
    {
      if c in w && (p == -1 || count[c] < count[p]) {
        p := c;
      }
    }
  }

  /** The ranked partners that are still in the round and allowed, in their ranked order. */
  method AllowedInOrder(list: seq<int>, w: set<int>, no: set<int>, row: seq<real>) returns (out: seq<int>)
    requires forall i, j :: 0 <= i < j < |list| ==> Better(row, list[i], list[j])
    ensures forall x :: x in out <==> x in list && x in w && x !in no
    ensures forall i, j :: 0 <= i < j < |out| ==> Better(row, out[i], out[j])
  {
    out := [];
    ghost var at: seq<int> := [];
    for k := 0 to |list|
      invariant |at| == |out|
      invariant forall i :: 0 <= i < |out| ==> 0 <= at[i] < k && out[i] == list[at[i]] && out[i] in w && out[i] !in no
      invariant forall i, j :: 0 <= i < j < |out| ==> at[i] < at[j]
      invariant forall u :: 0 <= u < k && list[u] in w && list[u] !in no ==> list[u] in out
    {
      if list[k] in w && list[k] !in no {
        out, at := out + [list[k]], at + [k];
      }
    }
  }

  /** The first ranked partner that is still in the round and allowed, if there is one. */
  method FirstAllowed(list: seq<int>, n: nat, p: int, w: set<int>, f: Forbidden, row: seq<real>) returns (q: int)
    requires 0 <= p < n == |f| && InRange(w, n) && RankedFor(list, n, p, row)
    ensures q == -1 ==> forall c :: c in w ==> !Allowed(f, p, c)
    ensures q != -1 ==> Favourite(q, p, w, f, row)
  {
    q := -1;
    for k := 0 to |list|
      invariant q == -1 && forall i :: 0 <= i < k ==> !(list[i] in w && list[i] !in f[p])
    {
      if list[k] in w && list[k] !in f[p] {
        q := list[k];
        forall c | c in w && Allowed(f, p, c) && c != q ensures Better(row, q, c) {
          assert c in list;
          var i :| 0 <= i < |list| && list[i] == c;
          assert i > k;
        }
        assert q in list;
        return;
      }
    }
    forall c | c in list ensures c !in w || c in f[p] {
      var i :| 0 <= i < |list| && list[i] == c;
    }
  }
}

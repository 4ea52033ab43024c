/** Facts about finite sets and sequences that several proofs count with. */
module Sets {

  function Range(n: nat): set<int> {
    set x: int {:trigger Within(x, n)} | 0 <= x < n && Within(x, n)
  }

  predicate Within(x: int, n: nat) {
    0 <= x < n
  }

  lemma {:induction false} RangeCard(n: nat)
    ensures |Range(n)| == n
  {
    if n > 0 {
      RangeCard(n - 1);
      assert Range(n) == Range(n - 1) + {n - 1};
    }
  }

  lemma {:induction false} SubsetCard<T>(a: set<T>, b: set<T>)
    requires a <= b
    ensures |a| <= |b|
    ensures |a| == |b| ==> a == b
  {
    assert b == a + (b - a);
    assert |b| == |a| + |b - a|;
    if |a| == |b| {
      assert b - a == {};
    }
  }

  lemma Pick<T>(s: set<T>) returns (x: T)
    requires |s| > 0
    ensures x in s && |s - {x}| == |s| - 1
  {
    x :| x in s;
  }

  /** Taking two distinct members out of a set lowers its size by two. */
  lemma RemoveTwo<T>(s: set<T>, x: T, y: T)
    requires x in s && y in s && x != y
    ensures |s - {x, y}| == |s| - 2
  {
    assert s - {x, y} == (s - {x}) - {y};
  }

  /** Removing two elements costs at most one for each that was present. */
  lemma CutCard<T>(s: set<T>, x: T, y: T)
    ensures |s| <= |s - {x, y}| + (if x in s then 1 else 0) + (if y in s then 1 else 0)
  {
    var t := s - {x};
    assert s - {x, y} == t - {y};
    assert |s| <= |t| + (if x in s then 1 else 0);
  }

  /** A sequence without repetition that stays inside a set is no longer than the set. */
  lemma {:induction false} DistinctSeqFits<T>(xs: seq<T>, s: set<T>)
    requires forall i :: 0 <= i < |xs| ==> xs[i] in s
    requires forall i, j :: 0 <= i < j < |xs| ==> xs[i] != xs[j]
    ensures |xs| <= |s|
    ensures |xs| == |s| ==> forall x :: x in s ==> x in xs
  {
    if |xs| > 0 {
      var last := xs[|xs| - 1];
      var rest := xs[..|xs| - 1];
      DistinctSeqFits(rest, s - {last});
      if |xs| == |s| {
        forall x | x in s ensures x in xs {
          if x != last {
            assert x in s - {last};
            assert x in rest;
          }
        }
      }
    } else if |s| == 0 {
      assert s == {};
    }
  }

  // ----- permutations and repetitions

  lemma IndexIn<T>(ps: seq<T>, qs: seq<T>, i: int) returns (k: int)
    requires multiset(ps) == multiset(qs) && 0 <= i < |qs|
    ensures 0 <= k < |ps| && ps[k] == qs[i]
  {
    assert qs[i] in multiset(qs);
    assert qs[i] in multiset(ps);
    k :| 0 <= k < |ps| && ps[k] == qs[i];
  }

  lemma TwiceInSeq<T>(qs: seq<T>, i: int, j: int)
    requires 0 <= i < j < |qs| && qs[i] == qs[j]
    ensures multiset(qs)[qs[i]] >= 2
  {
    assert qs == qs[..j] + qs[j..];
    assert qs[i] in qs[..j] && qs[j..][0] == qs[i];
    assert multiset(qs) == multiset(qs[..j]) + multiset(qs[j..]);
    assert qs[i] in multiset(qs[..j]) && qs[i] in multiset(qs[j..]);
  }

  predicate Distinct<T(==)>(xs: seq<T>) {
    forall i, j :: 0 <= i < j < |xs| ==> xs[i] != xs[j]
  }

  lemma {:induction false} DistinctOccursOnce<T>(xs: seq<T>, x: T)
    requires Distinct(xs)
    ensures multiset(xs)[x] <= 1
  {
    if |xs| > 0 {
      var init, last := xs[..|xs| - 1], xs[|xs| - 1];
      assert xs == init + [last];
      DistinctOccursOnce(init, x);
      if x == last {
        assert x !in init;
        assert x !in multiset(init);
      }
    }
  }
}

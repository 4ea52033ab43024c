/** Match scores: weighted overlap of two tag sets, clamped to [0, 1]. */
module Scoring {
  import opened Sets

  datatype Profile = Profile(tags: set<string>)

  /** A weight is a non-negative finite number; the constructor of the source rejects others. */
  type Weight = w: real | w >= 0.0

  function ComputeMatchScore(a: Profile, b: Profile, weight: Weight): (score: real)
    ensures 0.0 <= score <= 1.0
  {
    var union := a.tags + b.tags;
    if union == {} then 0.0 else Weighted(|a.tags * b.tags|, |union|, weight)
  }

  function Weighted(shared: nat, all: nat, weight: Weight): (score: real)
    requires all > 0
    ensures 0.0 <= score <= 1.0
  {
    var jaccard := shared as real / all as real;
    var raw := weight * jaccard;
    if raw > 1.0 then 1.0 else if raw < 0.0 then 0.0 else raw
  }

  /** The score is the weighted share of common tags among all tags of the two, and at most one. */
  lemma ScoreIsTheShare(a: Profile, b: Profile, weight: Weight)
    ensures var all, shared := |a.tags + b.tags| as real, |a.tags * b.tags| as real;
            ComputeMatchScore(a, b, weight) * all == if weight * shared > all then all else weight * shared
    ensures a.tags + b.tags == {} ==> ComputeMatchScore(a, b, weight) == 0.0
  {
    hide Weighted;
    if a.tags + b.tags != {} {
      ShareOf(|a.tags * b.tags|, |a.tags + b.tags|, weight);
    } else {
      assert a.tags * b.tags == {};
    }
  }

  lemma ShareOf(k: nat, n: nat, weight: Weight)
    requires 0 < n
    ensures Weighted(k, n, weight) * n as real == if weight * k as real > n as real then n as real else weight * k as real
  {
    var q := k as real / n as real;
    assert q * n as real == k as real;
    assert weight * q * n as real == weight * k as real by {
      assert (weight * q) * n as real == weight * (q * n as real);
    }
    var raw := weight * q;
    assert raw >= 0.0 by {
      assert q >= 0.0;
    }
    assert raw > 1.0 <==> raw * n as real > n as real by {
      assert raw * n as real - n as real == (raw - 1.0) * n as real;
    }
  }

  lemma ScoreIsSymmetric(a: Profile, b: Profile, weight: Weight)
    ensures ComputeMatchScore(a, b, weight) == ComputeMatchScore(b, a, weight)
  {
    hide Weighted;
    assert a.tags + b.tags == b.tags + a.tags;
    assert a.tags * b.tags == b.tags * a.tags;
  }

  /** The score is zero exactly when nothing is shared or the weight switches tags off. */
  lemma ScoreIsZero(a: Profile, b: Profile, weight: Weight)
    ensures ComputeMatchScore(a, b, weight) == 0.0 <==> a.tags * b.tags == {} || weight == 0.0
  {
    var union, shared := a.tags + b.tags, a.tags * b.tags;
    if shared == {} {
      assert weight * (0 as real / (if union == {} then 1 else |union|) as real) == 0.0;
    } else {
      Positive(|shared|, |union|, weight);
    }
  }

  lemma Positive(k: nat, n: nat, weight: Weight)
    requires 0 < k && 0 < n
    ensures k as real / n as real > 0.0
    ensures weight * (k as real / n as real) == 0.0 <==> weight == 0.0
  {
    var q := k as real / n as real;
    assert q * n as real == k as real;
    if weight > 0.0 {
      assert weight * q > 0.0;
    }
  }

  /** Nobody matches x better than somebody with exactly the same tags. */
  lemma SameTagsScoreBest(a: Profile, b: Profile, weight: Weight)
    requires a.tags != {}
    ensures ComputeMatchScore(a, b, weight) <= ComputeMatchScore(a, a, weight)
    ensures ComputeMatchScore(a, a, weight) == if weight > 1.0 then 1.0 else weight
  {
    var union, shared := a.tags + b.tags, a.tags * b.tags;
    assert a.tags + a.tags == a.tags && a.tags * a.tags == a.tags;
    SubsetCard(shared, union);
    AtMostOne(|shared|, |union|, weight);
    AtMostOne(|a.tags|, |a.tags|, weight);
  }

  lemma AtMostOne(k: nat, n: nat, weight: Weight)
    requires k <= n && 0 < n
    ensures 0.0 <= k as real / n as real <= 1.0
    ensures 0.0 <= weight * (k as real / n as real) <= weight
    ensures k == n ==> weight * (k as real / n as real) == weight
  {
    var q := k as real / n as real;
    assert q * n as real == k as real;
    assert weight * (1.0 - q) >= 0.0;
  }
}

/** Stable insertion sort standing for the library's sorted(). */
module Sorting {

  ghost predicate TotalPreorder<T(!new)>(leq: (T, T) -> bool) {
    && (forall x, y :: leq(x, y) || leq(y, x))
    && (forall x, y, z :: leq(x, y) && leq(y, z) ==> leq(x, z))
  }

  ghost predicate SortedBy<T(!new)>(xs: seq<T>, leq: (T, T) -> bool) {
    forall i, j :: 0 <= i < j < |xs| ==> leq(xs[i], xs[j])
  }

  /** x goes behind everything that is not greater. */
  function Insert<T>(xs: seq<T>, x: T, leq: (T, T) -> bool): seq<T> {
    if xs == [] || leq(xs[|xs| - 1], x) then xs + [x]
    else Insert(xs[..|xs| - 1], x, leq) + [xs[|xs| - 1]]
  }

  function Sorted<T>(xs: seq<T>, leq: (T, T) -> bool): seq<T> {
    if xs == [] then [] else Insert(Sorted(xs[..|xs| - 1], leq), xs[|xs| - 1], leq)
  }

  lemma {:induction false} InsertKeeps<T>(xs: seq<T>, x: T, leq: (T, T) -> bool)
    ensures multiset(Insert(xs, x, leq)) == multiset(xs) + multiset{x}
  {
    if xs != [] && !leq(xs[|xs| - 1], x) {
      var init := xs[..|xs| - 1];
      InsertKeeps(init, x, leq);
      assert xs == init + [xs[|xs| - 1]];
    }
  }

  lemma {:induction false} SortedKeeps<T>(xs: seq<T>, leq: (T, T) -> bool)
    ensures multiset(Sorted(xs, leq)) == multiset(xs)
  {
    if xs != [] {
      var init, last := xs[..|xs| - 1], xs[|xs| - 1];
      SortedKeeps(init, leq);
      InsertKeeps(Sorted(init, leq), last, leq);
      assert xs == init + [last];
    }
  }

  lemma {:induction false} InsertSorts<T(!new)>(xs: seq<T>, x: T, leq: (T, T) -> bool)
    requires TotalPreorder(leq) && SortedBy(xs, leq)
    ensures SortedBy(Insert(xs, x, leq), leq)
    ensures forall y :: y in Insert(xs, x, leq) ==> y in xs || y == x
  {
    if xs != [] {
      var init, last := xs[..|xs| - 1], xs[|xs| - 1];
      if leq(last, x) {
        assert forall i :: 0 <= i < |xs| ==> leq(xs[i], last) || xs[i] == last;
        assert leq(last, last);
      } else {
        InsertSorts(init, x, leq);
        var out := Insert(init, x, leq);
        forall i | 0 <= i < |out| ensures leq(out[i], last) {
          assert out[i] in out;
          if out[i] in init {
            var k :| 0 <= k < |init| && init[k] == out[i];
            assert xs[k] == init[k];
          }
        }
      }
    }
  }

  lemma {:induction false} SortedSorts<T(!new)>(xs: seq<T>, leq: (T, T) -> bool)
    requires TotalPreorder(leq)
    ensures SortedBy(Sorted(xs, leq), leq)
  {
    if xs != [] {
      SortedSorts(xs[..|xs| - 1], leq);
      InsertSorts(Sorted(xs[..|xs| - 1], leq), xs[|xs| - 1], leq);
    }
  }
}

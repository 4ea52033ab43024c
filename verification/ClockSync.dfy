/**
 Clock synchronisation: what one exchange with the server tells about the offset between the two
 clocks, and how far the published median can be off. Times are real milliseconds.
 */
module ClockSync {
  import opened Wrappers
  import opened Sorting

  datatype Sample = Sample(clientSend: real, server: real, clientReceive: real, rtt: real, offset: real)

  datatype Status = Unsynchronised | Insufficient | Synchronised

  function Abs(x: real): real {
    if x < 0.0 then -x else x
  }

  predicate Near(x: real, target: real, bound: real) {
    Abs(x - target) <= bound
  }

  // ----- one exchange

  /** Clock readings in milliseconds, readings of the monotonic clock in seconds. */
  function MakeSample(clientSend: real, server: real, clientReceive: real, monotonicSend: real, monotonicReceive: real): (s: Sample)
    ensures s.rtt >= 0.0 && s.rtt >= (monotonicReceive - monotonicSend) * 1000.0
    ensures monotonicReceive < monotonicSend ==> s.rtt == 0.0
  {
    var elapsed := (monotonicReceive - monotonicSend) * 1000.0;
    Sample(clientSend, server, clientReceive, if elapsed < 0.0 then 0.0 else elapsed,
           server - (clientSend + clientReceive) / 2.0)
  }

  /** The sample of an exchange that took `there` and `back` while the server was ahead by `ahead`. */
  function SampleOf(ahead: real, clientSend: real, there: real, back: real, monotonicSend: real): Sample {
    MakeSample(clientSend, clientSend + there + ahead, clientSend + there + back,
               monotonicSend, monotonicSend + (there + back) / 1000.0)
  }

  /** The offset is wrong by half of what the two ways differ, so by at most half the round trip. */
  lemma OffsetErrorOf(ahead: real, clientSend: real, there: real, back: real, monotonicSend: real)
    requires there >= 0.0 && back >= 0.0
    ensures var s := SampleOf(ahead, clientSend, there, back, monotonicSend);
            && s.rtt == there + back == s.clientReceive - s.clientSend
            && s.offset - ahead == (there - back) / 2.0
            && Near(s.offset, ahead, s.rtt / 2.0)
  {
    var s := SampleOf(ahead, clientSend, there, back, monotonicSend);
    assert (monotonicSend + (there + back) / 1000.0 - monotonicSend) * 1000.0 == there + back;
  }

  // ----- the median

  function Leq(): (real, real) -> bool {
    (x: real, y: real) => x <= y
  }

  /** The middle of the sorted values, or the mean of the two middle ones. */
  function Median(xs: seq<real>): real
    requires xs != []
  {
    var s := Sorted(xs, Leq());
    SortedLength(xs);
    if |xs| % 2 == 1 then s[|xs| / 2] else (s[|xs| / 2 - 1] + s[|xs| / 2]) / 2.0
  }

  lemma SortedLength(xs: seq<real>)
    ensures |Sorted(xs, Leq())| == |xs|
  {
    SortedKeeps(xs, Leq());
    assert |multiset(xs)| == |xs| && |multiset(Sorted(xs, Leq()))| == |Sorted(xs, Leq())|;
  }

  /** How many values have a property. */
  function Count(xs: seq<real>, p: real -> bool): nat {
    if xs == [] then 0
    else Count(xs[..|xs| - 1], p) + (if p(xs[|xs| - 1]) then 1 else 0)
  }

  function NearTo(target: real, bound: real): real -> bool {
    x => Near(x, target, bound)
  }

  function CountNear(xs: seq<real>, target: real, bound: real): nat {
    Count(xs, NearTo(target, bound))
  }

  lemma {:induction false} InsertCounts(xs: seq<real>, x: real, p: real -> bool)
    ensures Count(Insert(xs, x, Leq()), p) == Count(xs, p) + (if p(x) then 1 else 0)
  {
    var out := Insert(xs, x, Leq());
    if xs == [] || xs[|xs| - 1] <= x {
      assert out[..|out| - 1] == xs;
    } else {
      InsertCounts(xs[..|xs| - 1], x, p);
      assert out[..|out| - 1] == Insert(xs[..|xs| - 1], x, Leq());
    }
  }

  lemma {:induction false} SortedCounts(xs: seq<real>, p: real -> bool)
    ensures Count(Sorted(xs, Leq()), p) == Count(xs, p)
  {
    if xs != [] {
      SortedCounts(xs[..|xs| - 1], p);
      InsertCounts(Sorted(xs[..|xs| - 1], Leq()), xs[|xs| - 1], p);
    }
  }

  /** Values without the property, all in one stretch, leave room for the others only. */
  lemma {:induction false} CountOutside(xs: seq<real>, p: real -> bool, from: nat, to: nat)
    requires from <= to <= |xs|
    requires forall i :: from <= i < to ==> !p(xs[i])
    ensures Count(xs, p) <= |xs| - (to - from)
  {
    if xs != [] {
      var n := |xs| - 1;
      CountOutside(xs[..n], p, if from > n then n else from, if to > n then n else to);
    }
  }

  function Under(v: real): real -> bool {
    x => x < v
  }

  function Over(v: real): real -> bool {
    x => x > v
  }

  /** Counted from below, v is the k-th of the values. */
  predicate KthSmallest(xs: seq<real>, v: real, k: nat) {
    v in xs && Count(xs, Under(v)) < k <= |xs| - Count(xs, Over(v))
  }

  /** Counted from above, v is the k-th of the values. */
  predicate KthLargest(xs: seq<real>, v: real, k: nat) {
    v in xs && Count(xs, Over(v)) < k <= |xs| - Count(xs, Under(v))
  }

  lemma PlaceInSorted(s: seq<real>, i: nat)
    requires SortedBy(s, Leq()) && i < |s|
    ensures Count(s, Under(s[i])) <= i && Count(s, Over(s[i])) <= |s| - 1 - i
  {
    assert forall j :: 0 <= j < i ==> Leq()(s[j], s[i]);
    assert forall j :: i < j < |s| ==> Leq()(s[i], s[j]);
    CountOutside(s, Under(s[i]), i, |s|);
    CountOutside(s, Over(s[i]), 0, i + 1);
  }

  /** The median lies in the middle between the value half-way up and the value half-way down. */
  lemma MedianIsTheMiddle(xs: seq<real>) returns (low: real, high: real)
    requires xs != []
    ensures KthSmallest(xs, low, (|xs| + 1) / 2) && KthLargest(xs, high, (|xs| + 1) / 2)
    ensures Median(xs) == (low + high) / 2.0
    ensures |xs| % 2 == 1 ==> low == high
  {
    hide Count, Sorted;
    var s, n := Sorted(xs, Leq()), |xs|;
    SortedLength(xs);
    SortedSorts(xs, Leq());
    SortedKeeps(xs, Leq());
    low, high := s[(n - 1) / 2], s[n / 2];
    PlaceInSorted(s, (n - 1) / 2);
    PlaceInSorted(s, n / 2);
    SortedCounts(xs, Under(low));
    SortedCounts(xs, Over(low));
    SortedCounts(xs, Under(high));
    SortedCounts(xs, Over(high));
    assert low in multiset(s) && high in multiset(s);
  }

  lemma LowerMiddle(s: seq<real>, target: real, bound: real)
    requires SortedBy(s, Leq()) && s != [] && 2 * CountNear(s, target, bound) > |s|
    ensures s[(|s| - 1) / 2] >= target - bound
  {
    var low := (|s| - 1) / 2;
    if s[low] < target - bound {
      forall i | 0 <= i < low + 1 ensures !Near(s[i], target, bound) {
        assert i < low ==> Leq()(s[i], s[low]);
      }
      CountOutside(s, NearTo(target, bound), 0, low + 1);
      assert false;
    }
  }

  lemma UpperMiddle(s: seq<real>, target: real, bound: real)
    requires SortedBy(s, Leq()) && s != [] && 2 * CountNear(s, target, bound) > |s|
    ensures s[|s| / 2] <= target + bound
  {
    var high := |s| / 2;
    if s[high] > target + bound {
      forall i | high <= i < |s| ensures !Near(s[i], target, bound) {
        assert high < i ==> Leq()(s[high], s[i]);
      }
      CountOutside(s, NearTo(target, bound), high, |s|);
      assert false;
    }
  }

  /**
   If more than half of the values are near the target, so is the median, however wild the rest.
   */
  lemma MedianIsRobust(xs: seq<real>, target: real, bound: real)
    requires xs != [] && 2 * CountNear(xs, target, bound) > |xs|
    ensures Near(Median(xs), target, bound)
  {
    hide Count, Sorted;
    var s, n := Sorted(xs, Leq()), |xs|;
    SortedLength(xs);
    SortedSorts(xs, Leq());
    SortedCounts(xs, NearTo(target, bound));
    LowerMiddle(s, target, bound);
    UpperMiddle(s, target, bound);
    var low, high := (n - 1) / 2, n / 2;
    assert low < high ==> Leq()(s[low], s[high]);
    assert low == high || low == high - 1;
  }

  /** Half of the values is not enough. */
  lemma HalfIsNotEnough(target: real, bound: real)
    requires bound >= 0.0
    ensures var xs := [target, target + 2.0 * bound + 2.0];
            2 * CountNear(xs, target, bound) == |xs| && !Near(Median(xs), target, bound)
  {
    var a, b := target, target + 2.0 * bound + 2.0;
    var xs := [a, b];
    assert xs[..1] == [a] && [a][..0] == [];
    assert Sorted([a], Leq()) == Insert([], a, Leq()) == [a];
    assert Sorted(xs, Leq()) == Insert([a], b, Leq()) == xs;
    assert Count([a], NearTo(target, bound)) == 1;
  }

  // ----- the state

  function Offsets(samples: seq<Sample>): (r: seq<real>)
    ensures |r| == |samples| && forall i :: 0 <= i < |r| ==> r[i] == samples[i].offset
  {
    seq(|samples|, i requires 0 <= i < |samples| => samples[i].offset)
  }

  function RoundTrips(samples: seq<Sample>): (r: seq<real>)
    ensures |r| == |samples| && forall i :: 0 <= i < |r| ==> r[i] == samples[i].rtt
  {
    seq(|samples|, i requires 0 <= i < |samples| => samples[i].rtt)
  }

  class ClockSyncState {
    var samples: seq<Sample>
    var offset: Option<real>
    var rtt: Option<real>
    var status: Status

    constructor ()
      ensures samples == [] && offset == None && rtt == None && status == Unsynchronised
    {
      samples, offset, rtt, status := [], None, None, Unsynchronised;
    }

    /** Keeps a sample whose round trip is neither negative nor too long. */
    method Add(sample: Sample, maxRtt: real) returns (kept: bool)
      modifies this`samples
      ensures kept <==> 0.0 <= sample.rtt <= maxRtt
      ensures samples == if kept then old(samples) + [sample] else old(samples)
    {
      if sample.rtt < 0.0 || sample.rtt > maxRtt {
        return false;
      }
      samples := samples + [sample];
      return true;
    }

    /** Publishes the medians; with a majority of samples near the true offset it is near it too. */
    method Finalize(minimumSamples: int)
      modifies this`offset, this`rtt, this`status
      ensures samples == [] ==> status == Unsynchronised && offset == None && rtt == None
      ensures samples != [] ==> offset == Some(Median(Offsets(samples))) && rtt == Some(Median(RoundTrips(samples)))
      ensures samples != [] ==> status == if |samples| >= minimumSamples then Synchronised else Insufficient
      ensures forall ahead, bound :: samples != [] && 2 * CountNear(Offsets(samples), ahead, bound) > |samples| ==>
                Near(offset.value, ahead, bound)
    {
      if samples == [] {
        status, offset, rtt := Unsynchronised, None, None;
        return;
      }
      offset, rtt := Some(Median(Offsets(samples))), Some(Median(RoundTrips(samples)));
      status := if |samples| >= minimumSamples then Synchronised else Insufficient;
      forall ahead, bound | 2 * CountNear(Offsets(samples), ahead, bound) > |samples| ensures Near(offset.value, ahead, bound) {
        MedianIsRobust(Offsets(samples), ahead, bound);
      }
    }

    method EstimatedServerTime(clientTime: real) returns (t: Option<int>)
      ensures t == if offset.None? then None else Some(RoundHalfEven(clientTime + offset.value))
    {
      if offset.None? {
        return None;
      }
      return Some(RoundHalfEven(clientTime + offset.value));
    }
  }

  /** Python's round(): to the nearest integer, a tie to the even one. */
  function RoundHalfEven(x: real): int {
    var f := x.Floor;
    var rest := x - f as real;
    if rest < 0.5 then f else if rest > 0.5 then f + 1 else if f % 2 == 0 then f else f + 1
  }

  // ----- from exchanges to the published offset

  /** An undisturbed exchange: how long the two ways took. */
  datatype Exchange = Exchange(clientSend: real, there: real, back: real, monotonicSend: real)

  /** The samples that are marked come from undisturbed exchanges and were kept. */
  ghost predicate FromExchanges(samples: seq<Sample>, marks: seq<Option<Exchange>>, ahead: real, maxRtt: real) {
    && |marks| == |samples|
    && forall i :: 0 <= i < |marks| && marks[i].Some? ==>
         var x := marks[i].value;
         x.there >= 0.0 && x.back >= 0.0 && samples[i] == SampleOf(ahead, x.clientSend, x.there, x.back, x.monotonicSend)
         && samples[i].rtt <= maxRtt
  }

  function CountMarked(marks: seq<Option<Exchange>>): nat {
    if marks == [] then 0
    else CountMarked(marks[..|marks| - 1]) + (if marks[|marks| - 1].Some? then 1 else 0)
  }

  lemma {:induction false} MarkedAreNear(samples: seq<Sample>, marks: seq<Option<Exchange>>, ahead: real, maxRtt: real)
    requires FromExchanges(samples, marks, ahead, maxRtt)
    ensures CountMarked(marks) <= CountNear(Offsets(samples), ahead, maxRtt / 2.0)
  {
    if marks != [] {
      var n := |marks| - 1;
      MarkedAreNear(samples[..n], marks[..n], ahead, maxRtt);
      assert Offsets(samples)[..n] == Offsets(samples[..n]);
      if marks[n].Some? {
        var x := marks[n].value;
        OffsetErrorOf(ahead, x.clientSend, x.there, x.back, x.monotonicSend);
      }
    }
  }

  /**
   When most of the kept samples come from undisturbed exchanges, the estimated server time is wrong
   by at most half the round trip that samples are allowed, and the rounding.
   */
  lemma EstimateIsClose(samples: seq<Sample>, marks: seq<Option<Exchange>>, ahead: real, maxRtt: real, clientTime: real)
    requires samples != [] && FromExchanges(samples, marks, ahead, maxRtt) && 2 * CountMarked(marks) > |samples|
    ensures Near(RoundHalfEven(clientTime + Median(Offsets(samples))) as real, clientTime + ahead, maxRtt / 2.0 + 0.5)
  {
    MarkedAreNear(samples, marks, ahead, maxRtt);
    MedianIsRobust(Offsets(samples), ahead, maxRtt / 2.0);
    RoundIsNear(clientTime + Median(Offsets(samples)));
  }

  lemma RoundIsNear(x: real)
    ensures Near(RoundHalfEven(x) as real, x, 0.5)
    ensures Abs(RoundHalfEven(x) as real - x) == 0.5 ==> RoundHalfEven(x) % 2 == 0
  {
  }
}

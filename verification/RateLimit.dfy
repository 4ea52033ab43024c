/** The limit on messages of one socket: a sliding window over the times of accepted messages. */
module RateLimit {

  const WINDOW: int := 60_000_000

  ghost predicate Ascending(times: seq<int>) {
    forall i, j :: 0 <= i < j < |times| ==> times[i] <= times[j]
  }

  /** How many times lie after a moment. */
  function CountAfter(times: seq<int>, moment: int): nat {
    if times == [] then 0
    else CountAfter(times[..|times| - 1], moment) + (if times[|times| - 1] > moment then 1 else 0)
  }

  /** How many times lie in the window that ends at a moment. */
  function CountWithin(times: seq<int>, moment: int): nat {
    if times == [] then 0
    else CountWithin(times[..|times| - 1], moment)
         + (if moment - WINDOW < times[|times| - 1] <= moment then 1 else 0)
  }

  class RateLimiter {
    const limit: int
    var stamps: seq<int>
    /** All messages ever accepted, and the latest time the limiter was asked. */
    ghost var accepted: seq<int>
    ghost var latest: int
    ghost var dropped: nat

    constructor (limit: int, now: int)
      ensures Valid() && this.limit == limit && accepted == [] && latest == now
    {
      this.limit := limit;
      stamps, accepted, latest, dropped := [], [], now, 0;
    }

    /** The stamps kept are the accepted times that may still count. */
    ghost predicate Valid()
      reads this
    {
      && Ascending(accepted) && AllUpTo(accepted, |accepted|, latest)
      && Tail(accepted, dropped, stamps) && AllUpTo(accepted, dropped, latest - WINDOW)
      && WindowsOk(accepted, limit)
    }

    /** Accepts a message exactly if fewer than the limit were accepted in the window before it. */
    method WithinRateLimit(now: int) returns (ok: bool)
      requires Valid() && latest <= now
      modifies this
      ensures Valid() && latest == now
      ensures ok <==> CountWithin(old(accepted), now) < limit
      ensures accepted == if ok then old(accepted) + [now] else old(accepted)
    {
      hide CountAfter, CountWithin, WindowsOk, Tail, AllUpTo, Ascending;
      UpToLater(accepted, |accepted|, latest, now);
      UpToLater(accepted, dropped, latest - WINDOW, now - WINDOW);
      latest := now;
      while stamps != [] && stamps[0] <= now - WINDOW
        invariant accepted == old(accepted) && latest == now
        invariant Tail(accepted, dropped, stamps) && AllUpTo(accepted, dropped, now - WINDOW)
        decreases |stamps|
      {
        TailPop(accepted, dropped, stamps, now - WINDOW);
        stamps := stamps[1..];
        dropped := dropped + 1;
      }
      TailCounts(accepted, dropped, stamps, now - WINDOW);
      WithinNow(accepted, now);
      if |stamps| >= limit {
        return false;
      }
      TailPush(accepted, dropped, stamps, now);
      AcceptKeepsWindows(accepted, now, limit);
      stamps := stamps + [now];
      accepted := accepted + [now];
      return true;
    }
  }

  ghost predicate AllUpTo(times: seq<int>, k: int, moment: int) {
    forall i :: 0 <= i < k && i < |times| ==> times[i] <= moment
  }

  ghost predicate Tail(times: seq<int>, k: nat, stamps: seq<int>) {
    k <= |times| && stamps == times[k..]
  }

  lemma UpToLater(times: seq<int>, k: int, moment: int, later: int)
    requires AllUpTo(times, k, moment) && moment <= later
    ensures AllUpTo(times, k, later)
  {
  }

  lemma TailPop(times: seq<int>, k: nat, stamps: seq<int>, moment: int)
    requires Tail(times, k, stamps) && AllUpTo(times, k, moment) && stamps != [] && stamps[0] <= moment
    ensures Tail(times, k + 1, stamps[1..]) && AllUpTo(times, k + 1, moment)
  {
  }

  lemma TailPush(times: seq<int>, k: nat, stamps: seq<int>, now: int)
    requires Tail(times, k, stamps) && Ascending(times) && AllUpTo(times, |times|, now)
    ensures Tail(times + [now], k, stamps + [now]) && Ascending(times + [now]) && AllUpTo(times + [now], |times| + 1, now)
    ensures forall m :: AllUpTo(times, k, m) ==> AllUpTo(times + [now], k, m)
  {
    assert (times + [now])[k..] == times[k..] + [now];
  }

  /** When the first stamp left still counts, they all do and nothing before them does. */
  lemma TailCounts(times: seq<int>, k: nat, stamps: seq<int>, moment: int)
    requires Tail(times, k, stamps) && Ascending(times) && AllUpTo(times, k, moment)
    requires stamps == [] || stamps[0] > moment
    ensures CountAfter(times, moment) == |stamps|
  {
    assert forall i :: k <= i < |times| ==> times[k] <= times[i];
    CountSuffix(times, moment, k);
  }

  function Most(limit: int): nat {
    if limit < 0 then 0 else limit
  }

  lemma {:induction false} CountSuffix(times: seq<int>, moment: int, k: nat)
    requires k <= |times|
    requires forall i :: 0 <= i < k ==> times[i] <= moment
    requires forall i :: k <= i < |times| ==> times[i] > moment
    ensures CountAfter(times, moment) == |times| - k
  {
    if times != [] {
      CountSuffix(times[..|times| - 1], moment, if k == |times| then k - 1 else k);
    }
  }

  /** No window of a minute, wherever it lies, has more than the limit. */
  ghost predicate WindowsOk(times: seq<int>, limit: int) {
    forall m :: CountWithin(times, m) <= Most(limit)
  }

  lemma AcceptKeepsWindows(times: seq<int>, now: int, limit: int)
    requires WindowsOk(times, limit) && CountAfter(times, now - WINDOW) < limit
    requires AllUpTo(times, |times|, now)
    ensures WindowsOk(times + [now], limit)
  {
    forall m ensures CountWithin(times + [now], m) <= Most(limit) {
      WindowsAfterAccept(times, now, m);
    }
  }

  /** The window ending now contains what any later window that contains now can. */
  lemma WindowsAfterAccept(times: seq<int>, now: int, m: int)
    requires forall i :: 0 <= i < |times| ==> times[i] <= now
    ensures CountWithin(times + [now], m) <=
            if m - WINDOW < now <= m then CountAfter(times, now - WINDOW) + 1 else CountWithin(times, m)
  {
    assert (times + [now])[..|times|] == times;
    if m - WINDOW < now <= m {
      WithinIsAfter(times, now, m);
    }
  }

  /** With nothing in the future, the window that ends now holds all that lies after its begin. */
  lemma {:induction false} WithinNow(times: seq<int>, now: int)
    requires AllUpTo(times, |times|, now)
    ensures CountWithin(times, now) == CountAfter(times, now - WINDOW)
  {
    if times != [] {
      WithinNow(times[..|times| - 1], now);
    }
  }

  lemma {:induction false} WithinIsAfter(times: seq<int>, now: int, m: int)
    requires now <= m
    ensures CountWithin(times, m) <= CountAfter(times, now - WINDOW)
  {
    if times != [] {
      WithinIsAfter(times[..|times| - 1], now, m);
    }
  }
}

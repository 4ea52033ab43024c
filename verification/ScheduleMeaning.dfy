/**
 What a clean report means for the participants: everybody is placed exactly once per round, no
 two people meet twice, nobody sits out twice, and hence how many rounds are possible at all.
 */
module ScheduleMeaning {
  import opened Wrappers
  import opened Sets
  import opened ScheduleTypes
  import opened Validation

  predicate InPair(sp: SchedulePair, x: Pid) {
    x == sp.pidA || x == sp.pidB
  }

  predicate Together(sp: SchedulePair, x: Pid, y: Pid) {
    (sp.pidA == x && sp.pidB == y) || (sp.pidA == y && sp.pidB == x)
  }

  predicate PairsApart(sp: SchedulePair, sq: SchedulePair) {
    sp.pidA != sq.pidA && sp.pidA != sq.pidB && sp.pidB != sq.pidA && sp.pidB != sq.pidB
  }

  predicate Paired(pairs: seq<SchedulePair>, x: Pid) {
    exists k :: 0 <= k < |pairs| && InPair(pairs[k], x)
  }

  /** Known people in proper pairs that share nobody. */
  predicate ProperPairs(pairs: seq<SchedulePair>, pids: set<Pid>) {
    && (forall k :: 0 <= k < |pairs| ==> pairs[k].pidA in pids && pairs[k].pidB in pids && pairs[k].pidA != pairs[k].pidB)
    && (forall k, l :: 0 <= k < l < |pairs| ==> PairsApart(pairs[k], pairs[l]))
  }

  /** Every participant is in exactly one pair or sits out, never both. */
  predicate ExactlyOnce(r: ScheduleRound, pids: set<Pid>) {
    && ProperPairs(r.pairs, pids)
    && (r.unmatched.Some? ==> r.unmatched.value in pids)
    && (forall x :: x in pids ==> (Paired(r.pairs, x) <==> r.unmatched != Some(x)))
  }

  predicate NumberedOnce(schedule: Schedule, numRounds: int) {
    && |schedule| == numRounds
    && (forall i :: 0 <= i < |schedule| ==> 1 <= schedule[i].number <= numRounds)
    && (forall i, j :: 0 <= i < j < |schedule| ==> schedule[i].number != schedule[j].number)
  }

  predicate NobodyMeetsTwice(schedule: Schedule) {
    forall r, s, k, l :: 0 <= r < s < |schedule| && 0 <= k < |schedule[r].pairs| && 0 <= l < |schedule[s].pairs| ==>
      !Together(schedule[r].pairs[k], schedule[s].pairs[l].pidA, schedule[s].pairs[l].pidB)
  }

  predicate NobodySitsOutTwice(schedule: Schedule) {
    forall r, s :: 0 <= r < s < |schedule| && schedule[r].unmatched.Some? ==> schedule[r].unmatched != schedule[s].unmatched
  }

  predicate Presentable(parse: UuidParse, r: ScheduleRound) {
    forall k :: 0 <= k < |r.pairs| ==> Below(parse, r.pairs[k].pidA, r.pairs[k].pidB) && 0.0 <= r.pairs[k].score <= 1.0
  }

  /** The scheduling promise to the participants, stated without reference to how it is checked. */
  predicate Sound(schedule: Schedule, pids: set<Pid>, numRounds: int) {
    && NumberedOnce(schedule, numRounds)
    && (forall i :: 0 <= i < |schedule| ==> ExactlyOnce(schedule[i], pids))
    && NobodyMeetsTwice(schedule) && NobodySitsOutTwice(schedule)
  }

  predicate AllPresentable(parse: UuidParse, schedule: Schedule) {
    forall i :: 0 <= i < |schedule| ==> Presentable(parse, schedule[i])
  }

  predicate Valid(parse: UuidParse, schedule: Schedule, pids: set<Pid>, numRounds: int) {
    Sound(schedule, pids, numRounds) && AllPresentable(parse, schedule)
  }

  /** Ids in the right order where there is an order, and a proper score. */
  predicate WellFormed(parse: UuidParse, r: ScheduleRound) {
    forall k :: 0 <= k < |r.pairs| ==> OrderOk(parse, r.pairs[k]) && 0.0 <= r.pairs[k].score <= 1.0
  }

  predicate ReadablePair(parse: UuidParse, sp: SchedulePair) {
    Parses(parse, sp.pidA) && Parses(parse, sp.pidB)
  }

  /** No two people whose ids can both be read meet twice. */
  predicate NoReadableRepeat(parse: UuidParse, schedule: Schedule) {
    forall r, s, k, l :: 0 <= r < s < |schedule| && 0 <= k < |schedule[r].pairs| && 0 <= l < |schedule[s].pairs|
                         && ReadablePair(parse, schedule[r].pairs[k]) ==>
      !Together(schedule[r].pairs[k], schedule[s].pairs[l].pidA, schedule[s].pairs[l].pidB)
  }

  /** What the checker can guarantee for any ids: everything but order and repetition where an id cannot be read. */
  predicate ValidAsRead(parse: UuidParse, schedule: Schedule, pids: set<Pid>, numRounds: int) {
    && NumberedOnce(schedule, numRounds)
    && (forall i :: 0 <= i < |schedule| ==> ExactlyOnce(schedule[i], pids) && WellFormed(parse, schedule[i]))
    && NoReadableRepeat(parse, schedule) && NobodySitsOutTwice(schedule)
  }

  predicate Readable(parse: UuidParse, pids: set<Pid>) {
    forall x :: x in pids ==> Parses(parse, x)
  }

  // ----- one round

  lemma {:induction false} UsedMember(pairs: seq<SchedulePair>, x: Pid)
    ensures x in Used(pairs) <==> Paired(pairs, x)
  {
    if pairs != [] {
      var init, last := pairs[..|pairs| - 1], pairs[|pairs| - 1];
      UsedMember(init, x);
      assert pairs == init + [last];
      assert Paired(pairs, x) <==> Paired(init, x) || InPair(last, x) by {
        if k :| 0 <= k < |pairs| && InPair(pairs[k], x) && k < |init| { assert InPair(init[k], x); }
        if k :| 0 <= k < |init| && InPair(init[k], x) { assert InPair(pairs[k], x); }
        if InPair(last, x) { assert InPair(pairs[|init|], x); }
      }
    }
  }

  lemma {:induction false} UsedCard(pairs: seq<SchedulePair>, pids: set<Pid>)
    requires ProperPairs(pairs, pids)
    ensures |Used(pairs)| == 2 * |pairs| && Used(pairs) <= pids
  {
    if pairs != [] {
      var init, last := pairs[..|pairs| - 1], pairs[|pairs| - 1];
      UsedCard(init, pids);
      UsedMember(init, last.pidA);
      UsedMember(init, last.pidB);
      assert Used(pairs) == Used(init) + {last.pidA} + {last.pidB};
    }
  }

  /** The per-pair checks against the used set amount to pairs that share nobody. */
  lemma PairsOkMeans(parse: UuidParse, pairs: seq<SchedulePair>, pids: set<Pid>)
    ensures PairsOk(parse, pairs, pids) <==>
            ProperPairs(pairs, pids) && forall k :: 0 <= k < |pairs| ==> OrderOk(parse, pairs[k]) && 0.0 <= pairs[k].score <= 1.0
  {
    hide OrderOk, Used;
    if PairsOk(parse, pairs, pids) {
      forall k, l | 0 <= k < l < |pairs| ensures PairsApart(pairs[k], pairs[l]) {
        assert PairOk(parse, pairs[l], pids, Used(pairs[..l]));
        UsedMember(pairs[..l], pairs[l].pidA);
        UsedMember(pairs[..l], pairs[l].pidB);
        assert pairs[..l][k] == pairs[k];
        assert !InPair(pairs[..l][k], pairs[l].pidA) && !InPair(pairs[..l][k], pairs[l].pidB);
      }
    }
    if ProperPairs(pairs, pids) {
      forall k, x | 0 <= k < |pairs| && InPair(pairs[k], x) ensures x !in Used(pairs[..k]) {
        UsedMember(pairs[..k], x);
        assert forall i :: 0 <= i < k ==> PairsApart(pairs[i], pairs[k]);
      }
      assert forall k :: 0 <= k < |pairs| ==> InPair(pairs[k], pairs[k].pidA) && InPair(pairs[k], pairs[k].pidB);
    }
  }

  function ByeSet(r: ScheduleRound): set<Pid> {
    if r.unmatched.Some? then {r.unmatched.value} else {}
  }

  /** Counting: the right number of disjoint pairs plus the bye reach everybody. */
  lemma CountedMeansExactlyOnce(r: ScheduleRound, pids: set<Pid>)
    requires ProperPairs(r.pairs, pids) && |r.pairs| == |pids| / 2 && ByePresence(r, |pids|)
    requires r.unmatched.Some? ==> r.unmatched.value in pids && r.unmatched.value !in Used(r.pairs)
    ensures ExactlyOnce(r, pids)
  {
    UsedCard(r.pairs, pids);
    var placed := Used(r.pairs) + ByeSet(r);
    assert |placed| == 2 * |r.pairs| + |ByeSet(r)|;
    SubsetCard(placed, pids);
    forall x | x in pids ensures Paired(r.pairs, x) <==> r.unmatched != Some(x) {
      UsedMember(r.pairs, x);
      assert x in placed;
    }
  }

  lemma ExactlyOnceCounts(r: ScheduleRound, pids: set<Pid>)
    requires ExactlyOnce(r, pids)
    ensures |r.pairs| == |pids| / 2 && ByePresence(r, |pids|)
    ensures r.unmatched.Some? ==> r.unmatched.value !in Used(r.pairs)
  {
    hide ProperPairs, Used, Paired;
    UsedCard(r.pairs, pids);
    forall x ensures x in pids <==> x in Used(r.pairs) + ByeSet(r) {
      UsedMember(r.pairs, x);
    }
    if r.unmatched.Some? {
      UsedMember(r.pairs, r.unmatched.value);
    }
    assert pids == Used(r.pairs) + ByeSet(r);
    assert |pids| == 2 * |r.pairs| + |ByeSet(r)|;
  }

  lemma RoundMeans(parse: UuidParse, r: ScheduleRound, pids: set<Pid>)
    ensures RoundOk(parse, r, pids) && ByePresence(r, |pids|) <==> ExactlyOnce(r, pids) && WellFormed(parse, r)
  {
    PairsOkMeans(parse, r.pairs, pids);
    hide Used, PairsApart, PairsOk, Paired, ByePresence;
    if RoundOk(parse, r, pids) && ByePresence(r, |pids|) {
      CountedMeansExactlyOnce(r, pids);
    }
    if ExactlyOnce(r, pids) {
      ExactlyOnceCounts(r, pids);
    }
  }

  // ----- the whole schedule

  lemma {:induction false} NumbersCard(schedule: Schedule)
    ensures |Numbers(schedule)| <= |schedule|
    ensures |Numbers(schedule)| == |schedule| ==> forall i, j :: 0 <= i < j < |schedule| ==> schedule[i].number != schedule[j].number
  {
    if schedule == [] {
      assert Numbers(schedule) == {};
    } else {
      var init, last := schedule[..|schedule| - 1], schedule[|schedule| - 1];
      NumbersCard(init);
      assert schedule == init + [last];
      assert Numbers(schedule) == Numbers(init) + {last.number};
      if |Numbers(schedule)| == |schedule| {
        forall i | 0 <= i < |init| ensures schedule[i].number != last.number {
          assert init[i] in init;
        }
      }
    }
  }

  lemma UptoMember(i: int, n: int)
    ensures i in Upto(n) <==> 1 <= i <= n
  {
    assert Numbered(i, n) <==> 1 <= i <= n;
  }

  lemma {:induction false} UptoCard(n: nat)
    ensures |Upto(n)| == n
  {
    if n > 0 {
      UptoCard(n - 1);
      UptoMember(n, n - 1);
      forall i ensures i in Upto(n) <==> i in Upto(n - 1) + {n} {
        UptoMember(i, n);
        UptoMember(i, n - 1);
      }
      assert Upto(n) == Upto(n - 1) + {n};
    } else {
      assert Upto(n) == {};
    }
  }

  lemma NumbersMean(schedule: Schedule, numRounds: int)
    ensures |schedule| == numRounds && Numbers(schedule) == Upto(numRounds) <==> NumberedOnce(schedule, numRounds)
  {
    if |schedule| == numRounds {
      UptoCard(numRounds);
      if Numbers(schedule) == Upto(numRounds) {
        NumbersCard(schedule);
        forall i | 0 <= i < |schedule| ensures 1 <= schedule[i].number <= numRounds {
          assert schedule[i] in schedule;
          assert schedule[i].number in Numbers(schedule);
        }
      }
      if NumberedOnce(schedule, numRounds) {
        NumberedOnceCovers(schedule, numRounds);
      }
    }
  }

  lemma NumberedOnceCovers(schedule: Schedule, numRounds: int)
    requires NumberedOnce(schedule, numRounds)
    ensures Numbers(schedule) == Upto(numRounds)
  {
    var xs := seq(|schedule|, i requires 0 <= i < |schedule| => schedule[i].number);
    UptoCard(numRounds);
    forall i | 0 <= i < |xs| ensures xs[i] in Upto(numRounds) {
      assert Numbered(xs[i], numRounds);
    }
    DistinctSeqFits(xs, Upto(numRounds));
    forall n ensures n in Upto(numRounds) <==> n in Numbers(schedule) {
      if n in Upto(numRounds) {
        assert n in xs;
        var i :| 0 <= i < |xs| && xs[i] == n;
        assert schedule[i] in schedule;
      }
      if n in Numbers(schedule) {
        var r :| r in schedule && r.number == n;
        var i :| 0 <= i < |schedule| && schedule[i] == r;
        assert xs[i] == n;
      }
    }
  }

  lemma {:induction false} ByeListMember(schedule: Schedule, p: Pid)
    ensures p in ByeList(schedule) <==> exists i :: 0 <= i < |schedule| && schedule[i].unmatched == Some(p)
  {
    if schedule != [] {
      var init, last := schedule[..|schedule| - 1], schedule[|schedule| - 1];
      ByeListMember(init, p);
      assert forall i :: 0 <= i < |init| ==> init[i] == schedule[i];
      if i :| 0 <= i < |init| && init[i].unmatched == Some(p) {
        assert schedule[i].unmatched == Some(p);
      }
    }
  }

  lemma {:induction false} ByesMean(schedule: Schedule)
    ensures Distinct(ByeList(schedule)) <==> NobodySitsOutTwice(schedule)
  {
    if schedule != [] {
      var init, last := schedule[..|schedule| - 1], schedule[|schedule| - 1];
      ByesMean(init);
      assert schedule == init + [last];
      if last.unmatched.Some? {
        var p := last.unmatched.value;
        ByeListMember(init, p);
        assert Distinct(ByeList(init) + [p]) <==> Distinct(ByeList(init)) && p !in ByeList(init) by {
          DistinctAppend(ByeList(init), p);
        }
      }
      SitsOutAppend(init, last);
    }
  }

  lemma DistinctAppend(xs: seq<Pid>, p: Pid)
    ensures Distinct(xs + [p]) <==> Distinct(xs) && p !in xs
  {
    var ys := xs + [p];
    assert ys[|xs|] == p;
    assert forall i :: 0 <= i < |xs| ==> ys[i] == xs[i];
    if Distinct(ys) {
      forall i, j | 0 <= i < j < |xs| ensures xs[i] != xs[j] { assert ys[i] != ys[j]; }
      forall i | 0 <= i < |xs| ensures xs[i] != p { assert ys[i] != ys[|xs|]; }
    }
  }

  lemma SitsOutAppend(init: Schedule, last: ScheduleRound)
    ensures NobodySitsOutTwice(init + [last]) <==>
            NobodySitsOutTwice(init) &&
            (last.unmatched.Some? ==> !exists i :: 0 <= i < |init| && init[i].unmatched == last.unmatched)
  {
    var all := init + [last];
    assert all[|init|] == last;
    assert forall i :: 0 <= i < |init| ==> all[i] == init[i];
    if NobodySitsOutTwice(all) {
      forall r, s | 0 <= r < s < |init| && init[r].unmatched.Some? ensures init[r].unmatched != init[s].unmatched {
        assert all[r] == init[r] && all[s] == init[s];
      }
      forall i | 0 <= i < |init| && last.unmatched.Some? ensures init[i].unmatched != last.unmatched {
        assert all[i] == init[i];
      }
    }
  }

  // ----- repeated pairs

  ghost predicate Logged(parse: UuidParse, sp: SchedulePair, n: int, e: Entry) {
    CanonKey(parse, sp.pidA, sp.pidB) == Some(e.0) && n == e.1
  }

  lemma {:induction false} PairEntriesMember(parse: UuidParse, pairs: seq<SchedulePair>, n: int, e: Entry)
    ensures e in PairEntries(parse, pairs, n) <==> exists k :: 0 <= k < |pairs| && Logged(parse, pairs[k], n, e)
  {
    hide CanonKey;
    if pairs != [] {
      var init, last := pairs[..|pairs| - 1], pairs[|pairs| - 1];
      PairEntriesMember(parse, init, n, e);
      assert forall k :: 0 <= k < |init| ==> init[k] == pairs[k];
      if k :| 0 <= k < |init| && Logged(parse, init[k], n, e) { assert Logged(parse, pairs[k], n, e); }
    }
  }

  ghost predicate LoggedIn(parse: UuidParse, r: ScheduleRound, e: Entry) {
    exists k :: 0 <= k < |r.pairs| && Logged(parse, r.pairs[k], r.number, e)
  }

  lemma {:induction false} EntriesMember(parse: UuidParse, schedule: Schedule, e: Entry)
    ensures e in Entries(parse, schedule) <==> exists i :: 0 <= i < |schedule| && LoggedIn(parse, schedule[i], e)
  {
    hide LoggedIn;
    if schedule != [] {
      var init, last := schedule[..|schedule| - 1], schedule[|schedule| - 1];
      EntriesMember(parse, init, e);
      LastRoundMember(parse, last, e);
      assert forall i :: 0 <= i < |init| ==> init[i] == schedule[i];
      if i :| 0 <= i < |init| && LoggedIn(parse, init[i], e) { assert LoggedIn(parse, schedule[i], e); }
    }
  }

  lemma LastRoundMember(parse: UuidParse, r: ScheduleRound, e: Entry)
    ensures e in PairEntries(parse, r.pairs, r.number) <==> LoggedIn(parse, r, e)
  {
    PairEntriesMember(parse, r.pairs, r.number, e);
  }

  /** If no entry clashes, two rounds with different numbers share no pair that can be read. */
  lemma NoClashMeans(parse: UuidParse, schedule: Schedule, r: int, s: int, k: int, l: int)
    requires NoClash(Entries(parse, schedule)) && forall i :: 0 <= i < |schedule| ==> WellFormed(parse, schedule[i])
    requires 0 <= r < s < |schedule| && schedule[r].number != schedule[s].number
    requires 0 <= k < |schedule[r].pairs| && 0 <= l < |schedule[s].pairs| && ReadablePair(parse, schedule[r].pairs[k])
    ensures !Together(schedule[r].pairs[k], schedule[s].pairs[l].pidA, schedule[s].pairs[l].pidB)
  {
    var sp, sq := schedule[r].pairs[k], schedule[s].pairs[l];
    if Together(sp, sq.pidA, sq.pidB) {
      assert OrderOk(parse, sp) && OrderOk(parse, sq);
      var e, e' := ((sp.pidA, sp.pidB), schedule[r].number), ((sp.pidA, sp.pidB), schedule[s].number);
      assert Logged(parse, sp, schedule[r].number, e) && Logged(parse, sq, schedule[s].number, e');
      assert LoggedIn(parse, schedule[r], e) && LoggedIn(parse, schedule[s], e');
      hide LoggedIn, Entries, CanonKey;
      EntriesMember(parse, schedule, e);
      EntriesMember(parse, schedule, e');
      ClashOfTwo(Entries(parse, schedule), e, e');
    }
  }

  lemma ClashOfTwo(entries: seq<Entry>, e: Entry, e': Entry)
    requires NoClash(entries) && e in entries && e' in entries && e.0 == e'.0
    ensures e.1 == e'.1
  {
    var i :| 0 <= i < |entries| && entries[i] == e;
    var j :| 0 <= j < |entries| && entries[j] == e';
    assert if i < j then entries[i].0 == entries[j].0 else entries[j].0 == entries[i].0;
  }

  lemma NoRepeatMeans(parse: UuidParse, schedule: Schedule)
    requires NoReadableRepeat(parse, schedule)
    ensures NoClash(Entries(parse, schedule))
  {
    hide CanonKey, Entries;
    var entries := Entries(parse, schedule);
    forall i, j | 0 <= i < j < |entries| && entries[i].0 == entries[j].0 ensures entries[i].1 == entries[j].1 {
      EntriesMember(parse, schedule, entries[i]);
      EntriesMember(parse, schedule, entries[j]);
      var r :| 0 <= r < |schedule| && LoggedIn(parse, schedule[r], entries[i]);
      var s :| 0 <= s < |schedule| && LoggedIn(parse, schedule[s], entries[j]);
      var k :| 0 <= k < |schedule[r].pairs| && Logged(parse, schedule[r].pairs[k], schedule[r].number, entries[i]);
      var l :| 0 <= l < |schedule[s].pairs| && Logged(parse, schedule[s].pairs[l], schedule[s].number, entries[j]);
      SameKeyTogether(parse, schedule[r].pairs[k], schedule[s].pairs[l]);
      if r != s {
        assert false;
      }
    }
  }

  lemma SameKeyTogether(parse: UuidParse, sp: SchedulePair, sq: SchedulePair)
    requires CanonKey(parse, sp.pidA, sp.pidB).Some?
    requires CanonKey(parse, sp.pidA, sp.pidB) == CanonKey(parse, sq.pidA, sq.pidB)
    ensures Together(sp, sq.pidA, sq.pidB) && Together(sq, sp.pidA, sp.pidB)
    ensures ReadablePair(parse, sp) && ReadablePair(parse, sq)
  {
  }

  /** The checks accept exactly what is valid as far as the ids can be read. */
  lemma CleanMeans(parse: UuidParse, schedule: Schedule, pids: set<Pid>, numRounds: int)
    ensures Clean(parse, schedule, pids, numRounds) <==> ValidAsRead(parse, schedule, pids, numRounds)
  {
    hide Numbers, Upto, RoundOk, ByePresence, ExactlyOnce, Distinct, ByeList, NobodySitsOutTwice, NoClash, Entries;
    hide NoReadableRepeat, NumberedOnce, WellFormed;
    NumbersMean(schedule, numRounds);
    ByesMean(schedule);
    forall i | 0 <= i < |schedule|
      ensures RoundOk(parse, schedule[i], pids) && ByePresence(schedule[i], |pids|) <==>
              ExactlyOnce(schedule[i], pids) && WellFormed(parse, schedule[i])
    {
      RoundMeans(parse, schedule[i], pids);
    }
    if Clean(parse, schedule, pids, numRounds) {
      CleanNoRepeats(parse, schedule, numRounds);
    }
    if ValidAsRead(parse, schedule, pids, numRounds) {
      NoRepeatMeans(parse, schedule);
    }
  }

  lemma CleanNoRepeats(parse: UuidParse, schedule: Schedule, numRounds: int)
    requires NoClash(Entries(parse, schedule)) && NumberedOnce(schedule, numRounds)
    requires forall i :: 0 <= i < |schedule| ==> WellFormed(parse, schedule[i])
    ensures NoReadableRepeat(parse, schedule)
  {
    hide NoClash, Entries, WellFormed, ReadablePair;
    forall r, s, k, l | 0 <= r < s < |schedule| && 0 <= k < |schedule[r].pairs| && 0 <= l < |schedule[s].pairs|
                        && ReadablePair(parse, schedule[r].pairs[k])
      ensures !Together(schedule[r].pairs[k], schedule[s].pairs[l].pidA, schedule[s].pairs[l].pidB)
    {
      NoClashMeans(parse, schedule, r, s, k, l);
    }
  }

  /** For readable ids the checks accept exactly the valid schedules. */
  lemma CleanMeansValid(parse: UuidParse, schedule: Schedule, pids: set<Pid>, numRounds: int)
    requires Readable(parse, pids)
    ensures Clean(parse, schedule, pids, numRounds) <==> Valid(parse, schedule, pids, numRounds)
  {
    hide Clean, ExactlyOnce, NobodySitsOutTwice, NumberedOnce, NobodyMeetsTwice, NoReadableRepeat, WellFormed, Presentable;
    CleanMeans(parse, schedule, pids, numRounds);
    if forall i :: 0 <= i < |schedule| ==> ExactlyOnce(schedule[i], pids) {
      forall i | 0 <= i < |schedule| ensures WellFormed(parse, schedule[i]) <==> Presentable(parse, schedule[i]) {
        ReadableRound(parse, schedule[i], pids);
      }
      ReadableRepeats(parse, schedule, pids);
    }
  }

  lemma ReadableRound(parse: UuidParse, r: ScheduleRound, pids: set<Pid>)
    requires Readable(parse, pids) && ExactlyOnce(r, pids)
    ensures WellFormed(parse, r) <==> Presentable(parse, r)
    ensures forall k :: 0 <= k < |r.pairs| ==> ReadablePair(parse, r.pairs[k])
  {
  }

  lemma ReadableRepeats(parse: UuidParse, schedule: Schedule, pids: set<Pid>)
    requires Readable(parse, pids) && forall i :: 0 <= i < |schedule| ==> ExactlyOnce(schedule[i], pids)
    ensures NoReadableRepeat(parse, schedule) <==> NobodyMeetsTwice(schedule)
  {
    hide ExactlyOnce, Together;
    forall i, k | 0 <= i < |schedule| && 0 <= k < |schedule[i].pairs| ensures ReadablePair(parse, schedule[i].pairs[k]) {
      ReadableRound(parse, schedule[i], pids);
    }
    hide ReadablePair;
  }

  // ----- how many rounds are possible at all

  predicate MeetIn(r: ScheduleRound, x: Pid, y: Pid) {
    exists k :: 0 <= k < |r.pairs| && Together(r.pairs[k], x, y)
  }

  lemma PartnerIn(r: ScheduleRound, pids: set<Pid>, x: Pid) returns (y: Pid)
    requires ExactlyOnce(r, pids) && x in pids && r.unmatched != Some(x)
    ensures MeetIn(r, x, y) && y in pids && y != x
  {
    var k :| 0 <= k < |r.pairs| && InPair(r.pairs[k], x);
    y := if r.pairs[k].pidA == x then r.pairs[k].pidB else r.pairs[k].pidA;
    assert Together(r.pairs[k], x, y);
  }

  /** Whom x met in the rounds up to here, one person per round and all of them different. */
  ghost predicate PartnerList(ys: seq<Pid>, schedule: Schedule, pids: set<Pid>, x: Pid) {
    && |ys| <= |schedule|
    && (forall i :: 0 <= i < |ys| ==> ys[i] in pids - {x} && MeetIn(schedule[i], x, ys[i]))
    && (forall i, j :: 0 <= i < j < |ys| ==> ys[i] != ys[j])
  }

  lemma NotMetBefore(schedule: Schedule, i: int, s: int, x: Pid, y: Pid)
    requires NobodyMeetsTwice(schedule) && 0 <= i < s < |schedule| && MeetIn(schedule[s], x, y)
    ensures !MeetIn(schedule[i], x, y)
  {
    var l :| 0 <= l < |schedule[s].pairs| && Together(schedule[s].pairs[l], x, y);
    forall k | 0 <= k < |schedule[i].pairs| ensures !Together(schedule[i].pairs[k], x, y) {
      assert !Together(schedule[i].pairs[k], schedule[s].pairs[l].pidA, schedule[s].pairs[l].pidB);
    }
  }

  /** With an even number of people, x has met somebody new in every round. */
  lemma PartnersSoFar(schedule: Schedule, pids: set<Pid>, x: Pid) returns (ys: seq<Pid>)
    requires NobodyMeetsTwice(schedule) && x in pids
    requires forall i :: 0 <= i < |schedule| ==> ExactlyOnce(schedule[i], pids) && schedule[i].unmatched.None?
    ensures |ys| == |schedule| && PartnerList(ys, schedule, pids, x)
  {
    hide NobodyMeetsTwice, ExactlyOnce, MeetIn;
    ys := [];
    while |ys| < |schedule|
      invariant PartnerList(ys, schedule, pids, x)
      decreases |schedule| - |ys|
    {
      var s := |ys|;
      var y := PartnerIn(schedule[s], pids, x);
      forall i | 0 <= i < s ensures ys[i] != y {
        NotMetBefore(schedule, i, s, x, y);
      }
      ys := ys + [y];
    }
  }

  function MaxRounds(n: int): int {
    if n % 2 == 0 then n - 1 else n
  }

  /** The up-front bound of the generator: no valid schedule is longer. */
  lemma RoundBound(schedule: Schedule, pids: set<Pid>, numRounds: int)
    requires Sound(schedule, pids, numRounds) && |pids| >= 2
    ensures numRounds <= MaxRounds(|pids|)
  {
    hide NobodyMeetsTwice;
    forall i | 0 <= i < |schedule| ensures ByePresence(schedule[i], |pids|) {
      ExactlyOnceCounts(schedule[i], pids);
    }
    if |pids| % 2 == 0 {
      var x := Pick(pids);
      var ys := PartnersSoFar(schedule, pids, x);
      DistinctSeqFits(ys, pids - {x});
    } else {
      var byes := seq(|schedule|, i requires 0 <= i < |schedule| && schedule[i].unmatched.Some? => schedule[i].unmatched.value);
      DistinctSeqFits(byes, pids);
    }
  }

  // ----- with all possible rounds everybody meets everybody

  ghost predicate MetUpTo(met: set<Pid>, schedule: Schedule, n: nat, x: Pid, pids: set<Pid>) {
    forall y :: y in met ==> y in pids && y != x && exists i :: 0 <= i < n && i < |schedule| && MeetIn(schedule[i], x, y)
  }

  predicate SatOutBefore(schedule: Schedule, n: nat, x: Pid) {
    exists i :: 0 <= i < n && i < |schedule| && schedule[i].unmatched == Some(x)
  }

  /** In n rounds x meets n different people, or n - 1 after sitting out once. */
  lemma {:induction false} PeopleMet(schedule: Schedule, pids: set<Pid>, n: nat, x: Pid) returns (met: set<Pid>)
    requires n <= |schedule| && x in pids && NobodyMeetsTwice(schedule) && NobodySitsOutTwice(schedule)
    requires forall i :: 0 <= i < |schedule| ==> ExactlyOnce(schedule[i], pids)
    ensures MetUpTo(met, schedule, n, x, pids)
    ensures |met| == if SatOutBefore(schedule, n, x) then n - 1 else n
  {
    hide NobodyMeetsTwice, ExactlyOnce, MeetIn;
    if n == 0 {
      met := {};
    } else {
      met := PeopleMet(schedule, pids, n - 1, x);
      if schedule[n - 1].unmatched != Some(x) {
        var y := PartnerIn(schedule[n - 1], pids, x);
        forall i | 0 <= i < n - 1 ensures !MeetIn(schedule[i], x, y) {
          NotMetBefore(schedule, i, n - 1, x, y);
        }
        assert y !in met;
        met := met + {y};
      }
    }
  }

  /** As many rounds as possible leave no two people who did not meet. */
  lemma EverybodyMeets(schedule: Schedule, pids: set<Pid>, x: Pid, y: Pid)
    requires Sound(schedule, pids, MaxRounds(|pids|)) && x in pids && y in pids && x != y
    ensures exists i :: 0 <= i < |schedule| && MeetIn(schedule[i], x, y)
  {
    hide NobodyMeetsTwice, ExactlyOnce, MeetIn, NobodySitsOutTwice;
    var met := PeopleMet(schedule, pids, |schedule|, x);
    forall i | 0 <= i < |schedule| ensures ByePresence(schedule[i], |pids|) {
      ExactlyOnceCounts(schedule[i], pids);
    }
    assert met <= pids - {x};
    if y !in met {
      SubsetCard(met, pids - {x} - {y});
    }
  }

  // ----- a remark on what the code accepts

  function SameTwice(): Schedule {
    [ScheduleRound(1, [SchedulePair("x", "y", 0.0)], None), ScheduleRound(2, [SchedulePair("x", "y", 0.0)], None)]
  }

  /** Ids that are no UUIDs escape the repeat check: here a pair meets twice without a violation. */
  lemma UnreadableRepeatsPass(parse: UuidParse)
    requires parse("x").None? && parse("y").None?
    ensures Clean(parse, SameTwice(), {"x", "y"}, 2) && !NobodyMeetsTwice(SameTwice())
  {
    hide Clean, ExactlyOnce, NoReadableRepeat, WellFormed;
    var s, pids := SameTwice(), {"x", "y"};
    CleanMeans(parse, s, pids, 2);
    OnlyPairRound(s[0], pids);
    OnlyPairRound(s[1], pids);
    UnreadableRounds(parse, s);
    assert Together(s[0].pairs[0], s[1].pairs[0].pidA, s[1].pairs[0].pidB);
  }

  lemma UnreadableRounds(parse: UuidParse, schedule: Schedule)
    requires forall i, k :: 0 <= i < |schedule| && 0 <= k < |schedule[i].pairs| ==>
               parse(schedule[i].pairs[k].pidA).None? && schedule[i].pairs[k].score == 0.0
    ensures NoReadableRepeat(parse, schedule) && forall i :: 0 <= i < |schedule| ==> WellFormed(parse, schedule[i])
  {
  }

  lemma OnlyPairRound(r: ScheduleRound, pids: set<Pid>)
    requires |r.pairs| == 1 && r.unmatched.None? && r.pairs[0].pidA != r.pairs[0].pidB
    requires pids == {r.pairs[0].pidA, r.pairs[0].pidB}
    ensures ExactlyOnce(r, pids)
  {
    assert InPair(r.pairs[0], r.pairs[0].pidA) && InPair(r.pairs[0], r.pairs[0].pidB);
  }
}

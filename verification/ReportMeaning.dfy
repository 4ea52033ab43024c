/**
 What the checker's report says about a schedule: which violations it lists, with which data, each
 told from the rounds and pairs themselves.
 */
module ReportMeaning {
  import opened Wrappers
  import opened ScheduleTypes
  import opened Validation
  import opened ScheduleMeaning

  // ----- the violations of a schedule

  /** Two people with readable ids are in one of the pairs. */
  ghost predicate Meet(parse: UuidParse, pairs: seq<SchedulePair>, key: (Pid, Pid)) {
    exists k :: 0 <= k < |pairs| && CanonKey(parse, pairs[k].pidA, pairs[k].pidB) == Some(key)
  }

  /** The first of the rounds in which the two meet has this number. */
  ghost predicate FirstMet(parse: UuidParse, rounds: Schedule, key: (Pid, Pid), number: int) {
    exists i :: 0 <= i < |rounds| && rounds[i].number == number && Meet(parse, rounds[i].pairs, key)
                && forall j :: 0 <= j < i ==> !Meet(parse, rounds[j].pairs, key)
  }

  ghost predicate Misordered(parse: UuidParse, a: Pid, b: Pid) {
    a != b && parse(a).Some? && parse(b).Some? && parse(a).value >= parse(b).value
  }

  /** The violation is one of round r, which comes after the rounds in `prior`. */
  ghost predicate RoundBreaks(v: Violation, parse: UuidParse, r: ScheduleRound, pids: set<Pid>, prior: Schedule) {
    match v
    case UnknownParticipant(n, p) => n == r.number && p !in pids && (r.unmatched == Some(p) || Paired(r.pairs, p))
    case WrongPairCount(n, expected, got) => n == r.number && expected == |pids| / 2 && got == |r.pairs| && got != expected
    case UnmatchedPaired(n, p) => n == r.number && r.unmatched == Some(p) && Paired(r.pairs, p)
    case SelfPair(n, p) => n == r.number && exists k :: 0 <= k < |r.pairs| && r.pairs[k].pidA == p && r.pairs[k].pidB == p
    case WrongCanonicalOrder(n, a, b) =>
      && n == r.number && Misordered(parse, a, b)
      && (exists k :: 0 <= k < |r.pairs| && r.pairs[k].pidA == a && r.pairs[k].pidB == b)
    case DuplicateInRound(n) => n == r.number && exists k, l :: 0 <= l < k < |r.pairs| && !PairsApart(r.pairs[l], r.pairs[k])
    case ScoreOutOfRange(n, x) => n == r.number && !(0.0 <= x <= 1.0) && exists k :: 0 <= k < |r.pairs| && r.pairs[k].score == x
    case RepeatedPartner(key, first, n) =>
      n == r.number && first != n && Meet(parse, r.pairs, key) && FirstMet(parse, prior, key, first)
    case _ => false
  }

  /** The rounds in which p sits out. */
  ghost function SitsOutAt(schedule: Schedule, p: Pid): set<int> {
    set i | 0 <= i < |schedule| && schedule[i].unmatched == Some(p)
  }

  ghost predicate SomeRound(v: Violation, parse: UuidParse, schedule: Schedule, pids: set<Pid>) {
    exists i :: 0 <= i < |schedule| && RoundBreaks(v, parse, schedule[i], pids, schedule[..i])
  }

  /** The schedule has this violation. */
  ghost predicate Breaks(v: Violation, parse: UuidParse, schedule: Schedule, pids: set<Pid>, numRounds: int) {
    match v
    case WrongRoundCount(expected, got) => expected == numRounds && got == |schedule| && got != expected
    case WrongRoundNumbers(numbers) => numbers == Numbers(schedule) && numbers != Upto(numRounds)
    case UnmatchedInEvenEvent(n) =>
      |pids| % 2 == 0 && exists i :: 0 <= i < |schedule| && schedule[i].number == n && schedule[i].unmatched.Some?
    case MissingUnmatched(n) =>
      |pids| % 2 == 1 && exists i :: 0 <= i < |schedule| && schedule[i].number == n && schedule[i].unmatched.None?
    case UnmatchedTwice(p, count) => count == |SitsOutAt(schedule, p)| && count > 1
    case _ => SomeRound(v, parse, schedule, pids)
  }

  // ----- one round

  /** The violation is one that the k-th pair is reported for. */
  ghost predicate PairBreaks(v: Violation, parse: UuidParse, n: int, sp: SchedulePair, pids: set<Pid>, used: set<Pid>, seen: Seen) {
    match v
    case UnknownParticipant(m, p) => m == n && p !in pids && InPair(sp, p)
    case SelfPair(m, p) => m == n && sp.pidA == p && sp.pidB == p
    case WrongCanonicalOrder(m, a, b) => m == n && sp.pidA == a && sp.pidB == b && Misordered(parse, a, b)
    case DuplicateInRound(m) => m == n && (sp.pidA in used || sp.pidB in used)
    case ScoreOutOfRange(m, x) => m == n && sp.score == x && !(0.0 <= x <= 1.0)
    case RepeatedPartner(key, first, m) =>
      m == n && first != n && CanonKey(parse, sp.pidA, sp.pidB) == Some(key) && key in seen && seen[key] == first
    case _ => false
  }

  lemma PairReportHas(v: Violation, vs: Violations, parse: UuidParse, n: int, sp: SchedulePair, pids: set<Pid>, used: set<Pid>, seen: Seen)
    ensures v in PairReport(vs, parse, n, sp, pids, used, seen) <==> v in vs || PairBreaks(v, parse, n, sp, pids, used, seen)
  {
    hide CanonKey;
  }

  ghost predicate PairAt(v: Violation, parse: UuidParse, n: int, pairs: seq<SchedulePair>, k: nat, pids: set<Pid>, seen: Seen)
    requires k < |pairs|
  {
    PairBreaks(v, parse, n, pairs[k], pids, Used(pairs[..k]), SeePairs(parse, n, pairs[..k], seen))
  }

  ghost predicate SomePair(v: Violation, parse: UuidParse, n: int, pairs: seq<SchedulePair>, pids: set<Pid>, seen: Seen) {
    exists k :: 0 <= k < |pairs| && PairAt(v, parse, n, pairs, k, pids, seen)
  }

  lemma {:induction false} PairsReportHas(v: Violation, vs: Violations, parse: UuidParse, n: int, pairs: seq<SchedulePair>, pids: set<Pid>, seen: Seen)
    ensures v in PairsReport(vs, parse, n, pairs, pids, seen) <==> v in vs || SomePair(v, parse, n, pairs, pids, seen)
  {
    hide PairReport, PairBreaks, SeePairs, Used;
    if pairs != [] {
      var m := |pairs| - 1;
      var init := pairs[..m];
      PairsReportHas(v, vs, parse, n, init, pids, seen);
      PairReportHas(v, PairsReport(vs, parse, n, init, pids, seen), parse, n, pairs[m], pids, Used(init), SeePairs(parse, n, init, seen));
      forall k | 0 <= k < m ensures PairAt(v, parse, n, init, k, pids, seen) <==> PairAt(v, parse, n, pairs, k, pids, seen) {
        assert init[..k] == pairs[..k];
      }
      assert PairAt(v, parse, n, pairs, m, pids, seen) <==> PairBreaks(v, parse, n, pairs[m], pids, Used(init), SeePairs(parse, n, init, seen));
    }
  }

  /** The memory keeps for every two people the number of the first round they were seen in. */
  lemma {:induction false} SeePairsIs(parse: UuidParse, n: int, pairs: seq<SchedulePair>, seen: Seen, key: (Pid, Pid))
    ensures var after := SeePairs(parse, n, pairs, seen);
            && (key in after <==> key in seen || Meet(parse, pairs, key))
            && (key in after ==> after[key] == if key in seen then seen[key] else n)
  {
    hide CanonKey;
    if pairs != [] {
      var m := |pairs| - 1;
      var init := pairs[..m];
      SeePairsIs(parse, n, init, seen, key);
      MeetOneMore(parse, pairs, key);
    }
  }

  lemma MeetOneMore(parse: UuidParse, pairs: seq<SchedulePair>, key: (Pid, Pid))
    requires pairs != []
    ensures var m := |pairs| - 1;
            Meet(parse, pairs, key) <==> Meet(parse, pairs[..m], key) || CanonKey(parse, pairs[m].pidA, pairs[m].pidB) == Some(key)
  {
    hide CanonKey;
    var init := pairs[..|pairs| - 1];
    assert forall k :: 0 <= k < |init| ==> init[k] == pairs[k];
    if k :| 0 <= k < |init| && CanonKey(parse, init[k].pidA, init[k].pidB) == Some(key) {
      assert CanonKey(parse, pairs[k].pidA, pairs[k].pidB) == Some(key);
    }
  }

  lemma {:induction false} SeeRoundsIs(parse: UuidParse, rounds: Schedule, key: (Pid, Pid))
    ensures var seen := SeeRounds(parse, rounds);
            && (key in seen ==> FirstMet(parse, rounds, key, seen[key]))
            && (key !in seen ==> forall i :: 0 <= i < |rounds| ==> !Meet(parse, rounds[i].pairs, key))
  {
    hide Meet, SeePairs;
    if rounds != [] {
      var m := |rounds| - 1;
      var init, last := rounds[..m], rounds[m];
      SeeRoundsIs(parse, init, key);
      SeePairsIs(parse, last.number, last.pairs, SeeRounds(parse, init), key);
      assert forall i :: 0 <= i < m ==> init[i] == rounds[i];
      if key in SeeRounds(parse, init) {
        FirstMetStays(parse, rounds, key, SeeRounds(parse, init)[key]);
      } else if Meet(parse, last.pairs, key) {
        assert rounds[m].number == last.number;
      }
    }
  }

  lemma FirstMetStays(parse: UuidParse, rounds: Schedule, key: (Pid, Pid), number: int)
    requires rounds != [] && FirstMet(parse, rounds[..|rounds| - 1], key, number)
    ensures FirstMet(parse, rounds, key, number)
  {
    hide Meet;
    var init := rounds[..|rounds| - 1];
    var i :| 0 <= i < |init| && init[i].number == number && Meet(parse, init[i].pairs, key)
             && forall j :: 0 <= j < i ==> !Meet(parse, init[j].pairs, key);
    assert forall j :: 0 <= j <= i ==> init[j] == rounds[j];
    assert rounds[i].number == number && Meet(parse, rounds[i].pairs, key);
  }

  lemma FirstMetIff(parse: UuidParse, rounds: Schedule, key: (Pid, Pid), number: int)
    ensures FirstMet(parse, rounds, key, number) <==> key in SeeRounds(parse, rounds) && SeeRounds(parse, rounds)[key] == number
  {
    hide Meet, SeeRounds;
    SeeRoundsIs(parse, rounds, key);
    if FirstMet(parse, rounds, key, number) {
      var i :| 0 <= i < |rounds| && rounds[i].number == number && Meet(parse, rounds[i].pairs, key)
               && forall j :: 0 <= j < i ==> !Meet(parse, rounds[j].pairs, key);
      var other := SeeRounds(parse, rounds)[key];
      var k :| 0 <= k < |rounds| && rounds[k].number == other && Meet(parse, rounds[k].pairs, key)
               && forall j :: 0 <= j < k ==> !Meet(parse, rounds[j].pairs, key);
    }
  }

  /** A round's own repetitions are no clash, so only what was seen in earlier rounds matters. */
  lemma RepeatAt(parse: UuidParse, r: ScheduleRound, prior: Schedule, key: (Pid, Pid), first: int)
    ensures var n := r.number; var seen := SeeRounds(parse, prior);
            (exists k :: 0 <= k < |r.pairs| && CanonKey(parse, r.pairs[k].pidA, r.pairs[k].pidB) == Some(key) && first != n
                         && key in SeePairs(parse, n, r.pairs[..k], seen) && SeePairs(parse, n, r.pairs[..k], seen)[key] == first)
            <==> first != n && Meet(parse, r.pairs, key) && FirstMet(parse, prior, key, first)
  {
    hide CanonKey, SeePairs, SeeRounds, FirstMet;
    FirstMetIff(parse, prior, key, first);
    forall k | 0 <= k < |r.pairs|
      ensures var after := SeePairs(parse, r.number, r.pairs[..k], SeeRounds(parse, prior));
              first != r.number ==> (key in after && after[key] == first <==> FirstMet(parse, prior, key, first))
    {
      SeePairsIs(parse, r.number, r.pairs[..k], SeeRounds(parse, prior), key);
    }
  }

  lemma DuplicateAt(pairs: seq<SchedulePair>)
    ensures (exists k :: 0 <= k < |pairs| && (pairs[k].pidA in Used(pairs[..k]) || pairs[k].pidB in Used(pairs[..k])))
            <==> exists k, l :: 0 <= l < k < |pairs| && !PairsApart(pairs[l], pairs[k])
  {
    hide Used;
    forall k | 0 <= k < |pairs|
      ensures pairs[k].pidA in Used(pairs[..k]) || pairs[k].pidB in Used(pairs[..k])
              <==> exists l :: 0 <= l < k && !PairsApart(pairs[l], pairs[k])
    {
      SharesEarlier(pairs, k);
    }
  }

  lemma SharesEarlier(pairs: seq<SchedulePair>, k: nat)
    requires k < |pairs|
    ensures pairs[k].pidA in Used(pairs[..k]) || pairs[k].pidB in Used(pairs[..k])
            <==> exists l :: 0 <= l < k && !PairsApart(pairs[l], pairs[k])
  {
    hide Used;
    var init, sp := pairs[..k], pairs[k];
    UsedMember(init, sp.pidA);
    UsedMember(init, sp.pidB);
    if l :| 0 <= l < k && !PairsApart(pairs[l], sp) {
      assert InPair(init[l], sp.pidA) || InPair(init[l], sp.pidB);
    }
  }

  /** What the pairs of a round are reported for, told without the memory the loop carries. */
  lemma PairsBreak(v: Violation, parse: UuidParse, r: ScheduleRound, pids: set<Pid>, prior: Schedule)
    requires !v.WrongPairCount? && !v.UnmatchedPaired?
    ensures SomePair(v, parse, r.number, r.pairs, pids, SeeRounds(parse, prior))
            <==> RoundBreaks(v, parse, r.(unmatched := None), pids, prior)
  {
    hide CanonKey, SeePairs, SeeRounds, FirstMet, Meet, Used, Misordered, PairsApart;
    var n, pairs, seen := r.number, r.pairs, SeeRounds(parse, prior);
    assert forall k {:trigger pairs[k]} :: 0 <= k < |pairs| ==>
      (PairAt(v, parse, n, pairs, k, pids, seen)
       <==> PairBreaks(v, parse, n, pairs[k], pids, Used(pairs[..k]), SeePairs(parse, n, pairs[..k], seen)));
    hide PairAt;
    match v
    case RepeatedPartner(key, first, n) =>
      RepeatAt(parse, r, prior, key, first);
    case DuplicateInRound(n) =>
      DuplicateAt(r.pairs);
    case _ =>
  }

  lemma RoundReportHas(v: Violation, vs: Violations, parse: UuidParse, r: ScheduleRound, pids: set<Pid>, prior: Schedule)
    ensures v in RoundReport(vs, parse, r, pids, SeeRounds(parse, prior)) <==> v in vs || RoundBreaks(v, parse, r, pids, prior)
  {
    hide PairsReport, SomePair, SeeRounds, FirstMet, Meet, Used, Misordered, PairsApart;
    var seen := SeeRounds(parse, prior);
    var p := if r.unmatched.Some? then r.unmatched.value else "";
    var v1 := Note(vs, r.unmatched.Some? && p !in pids, UnknownParticipant(r.number, p));
    var v2 := Note(v1, |r.pairs| != |pids| / 2, WrongPairCount(r.number, |pids| / 2, |r.pairs|));
    PairsReportHas(v, v2, parse, r.number, r.pairs, pids, seen);
    UsedMember(r.pairs, p);
    if v.WrongPairCount? || v.UnmatchedPaired? {
      NoSuchPair(v, parse, r.number, r.pairs, pids, seen);
    } else {
      PairsBreak(v, parse, r, pids, prior);
    }
  }

  lemma NoSuchPair(v: Violation, parse: UuidParse, n: int, pairs: seq<SchedulePair>, pids: set<Pid>, seen: Seen)
    requires v.WrongPairCount? || v.UnmatchedPaired?
    ensures !SomePair(v, parse, n, pairs, pids, seen)
  {
  }

  // ----- the whole report

  lemma {:induction false} RoundReportsHas(v: Violation, vs: Violations, parse: UuidParse, schedule: Schedule, pids: set<Pid>)
    ensures v in RoundReports(vs, parse, schedule, pids) <==> v in vs || SomeRound(v, parse, schedule, pids)
  {
    hide RoundReport, RoundBreaks, SeeRounds;
    if schedule != [] {
      var m := |schedule| - 1;
      var init := schedule[..m];
      RoundReportsHas(v, vs, parse, init, pids);
      RoundReportHas(v, RoundReports(vs, parse, init, pids), parse, schedule[m], pids, init);
      assert forall i :: 0 <= i < m ==> init[i] == schedule[i] && init[..i] == schedule[..i];
      if i :| 0 <= i < m && RoundBreaks(v, parse, init[i], pids, init[..i]) {
        assert RoundBreaks(v, parse, schedule[i], pids, schedule[..i]);
      }
      assert RoundBreaks(v, parse, schedule[m], pids, init) ==> SomeRound(v, parse, schedule, pids);
      if i :| 0 <= i < |schedule| && RoundBreaks(v, parse, schedule[i], pids, schedule[..i]) && i < m {
        assert RoundBreaks(v, parse, init[i], pids, init[..i]);
      }
    }
  }

  ghost predicate ByeBreaks(v: Violation, r: ScheduleRound, n: nat) {
    match v
    case UnmatchedInEvenEvent(m) => n % 2 == 0 && r.number == m && r.unmatched.Some?
    case MissingUnmatched(m) => n % 2 == 1 && r.number == m && r.unmatched.None?
    case _ => false
  }

  lemma {:induction false} PresenceReportsHas(v: Violation, vs: Violations, schedule: Schedule, n: nat)
    ensures v in PresenceReports(vs, schedule, n) <==> v in vs || exists i :: 0 <= i < |schedule| && ByeBreaks(v, schedule[i], n)
  {
    if schedule != [] {
      var m := |schedule| - 1;
      var init := schedule[..m];
      PresenceReportsHas(v, vs, init, n);
      assert v in PresenceReport(PresenceReports(vs, init, n), schedule[m], n)
             <==> v in PresenceReports(vs, init, n) || ByeBreaks(v, schedule[m], n);
      hide ByeBreaks, PresenceReport;
      assert forall i :: 0 <= i < m ==> init[i] == schedule[i];
      if i :| 0 <= i < m && ByeBreaks(v, init[i], n) {
        assert ByeBreaks(v, schedule[i], n);
      }
    }
  }

  lemma {:induction false} TwiceReportHas(v: Violation, vs: Violations, keys: seq<Pid>, byes: seq<Pid>)
    ensures v in TwiceReport(vs, keys, byes) <==>
            v in vs || (v.UnmatchedTwice? && v.pid in keys && v.count == multiset(byes)[v.pid] && v.count > 1)
  {
    if keys != [] {
      TwiceReportHas(v, vs, keys[..|keys| - 1], byes);
      assert keys == keys[..|keys| - 1] + [keys[|keys| - 1]];
    }
  }

  lemma {:induction false} ByesCounted(schedule: Schedule, p: Pid)
    ensures multiset(ByeList(schedule))[p] == |SitsOutAt(schedule, p)|
  {
    if schedule != [] {
      var m := |schedule| - 1;
      var init := schedule[..m];
      ByesCounted(init, p);
      OneMoreRound(schedule, p);
      hide SitsOutAt;
    } else {
      assert SitsOutAt(schedule, p) == {};
    }
  }

  lemma OneMoreRound(schedule: Schedule, p: Pid)
    requires schedule != []
    ensures var m := |schedule| - 1;
            |SitsOutAt(schedule, p)| == |SitsOutAt(schedule[..m], p)| + (if schedule[m].unmatched == Some(p) then 1 else 0)
  {
    var m := |schedule| - 1;
    var init := schedule[..m];
    assert forall i :: 0 <= i < m ==> init[i] == schedule[i];
    assert SitsOutAt(schedule, p) == SitsOutAt(init, p) + (if schedule[m].unmatched == Some(p) then {m} else {});
  }

  /** The report lists exactly the violations that the schedule has, each with its own data. */
  lemma ReportTells(v: Violation, parse: UuidParse, schedule: Schedule, pids: set<Pid>, numRounds: int)
    ensures v in Report(parse, schedule, pids, numRounds) <==> Breaks(v, parse, schedule, pids, numRounds)
  {
    hide PresenceReports, RoundReports, TwiceReport, Numbers, Upto, SitsOutAt, SomeRound, ByeList, FirstByes;
    var head, byes := HeadReport(schedule, numRounds), ByeList(schedule);
    var v1 := PresenceReports(head, schedule, |pids|);
    var v2 := RoundReports(v1, parse, schedule, pids);
    PresenceReportsHas(v, head, schedule, |pids|);
    RoundReportsHas(v, v1, parse, schedule, pids);
    TwiceReportHas(v, v2, FirstByes(byes), byes);
    OtherKinds(v, parse, schedule, pids);
    if v.UnmatchedTwice? {
      FirstByesMember(byes, v.pid);
      ByesCounted(schedule, v.pid);
    }
  }

  lemma OtherKinds(v: Violation, parse: UuidParse, schedule: Schedule, pids: set<Pid>)
    ensures v.WrongRoundCount? || v.WrongRoundNumbers? || v.UnmatchedInEvenEvent? || v.MissingUnmatched? || v.UnmatchedTwice? ==>
              !SomeRound(v, parse, schedule, pids)
  {
  }
}

/**
 The independent checker of a generated schedule. It collects violations in loops; what it
 accepts is stated by `Clean`, and what that means for the participants is proved below.
 */
module Validation {
  import opened Wrappers
  import opened Sets
  import opened ScheduleTypes

  datatype Violation =
    | WrongRoundCount(expected: int, got: int)
    | WrongRoundNumbers(numbers: set<int>)
    | UnmatchedInEvenEvent(round: int)
    | MissingUnmatched(round: int)
    | UnknownParticipant(round: int, pid: Pid)
    | WrongPairCount(round: int, expected: int, got: int)
    | SelfPair(round: int, pid: Pid)
    | WrongCanonicalOrder(round: int, a: Pid, b: Pid)
    | DuplicateInRound(round: int)
    | ScoreOutOfRange(round: int, score: real)
    | RepeatedPartner(key: (Pid, Pid), first: int, round: int)
    | UnmatchedPaired(round: int, pid: Pid)
    | UnmatchedTwice(pid: Pid, count: int)

  // ----- what a clean report means, check by check

  /** Ids that cannot be read as UUIDs are not checked for order. */
  predicate OrderOk(parse: UuidParse, sp: SchedulePair) {
    Parses(parse, sp.pidA) && Parses(parse, sp.pidB) ==> Below(parse, sp.pidA, sp.pidB)
  }

  predicate PairOk(parse: UuidParse, sp: SchedulePair, pids: set<Pid>, used: set<Pid>) {
    && sp.pidA in pids && sp.pidB in pids && sp.pidA != sp.pidB
    && OrderOk(parse, sp)
    && sp.pidA !in used && sp.pidB !in used
    && 0.0 <= sp.score <= 1.0
  }

  function Used(pairs: seq<SchedulePair>): set<Pid> {
    if pairs == [] then {} else Used(pairs[..|pairs| - 1]) + {pairs[|pairs| - 1].pidA, pairs[|pairs| - 1].pidB}
  }

  predicate PairsOk(parse: UuidParse, pairs: seq<SchedulePair>, pids: set<Pid>) {
    forall k :: 0 <= k < |pairs| ==> PairOk(parse, pairs[k], pids, Used(pairs[..k]))
  }

  /** Somebody sits out exactly when the number of participants is odd. */
  predicate ByePresence(r: ScheduleRound, n: nat) {
    r.unmatched.Some? <==> n % 2 == 1
  }

  predicate PresenceOk(schedule: Schedule, n: nat) {
    forall i :: 0 <= i < |schedule| ==> ByePresence(schedule[i], n)
  }

  predicate RoundOk(parse: UuidParse, r: ScheduleRound, pids: set<Pid>) {
    && (r.unmatched.Some? ==> r.unmatched.value in pids && r.unmatched.value !in Used(r.pairs))
    && |r.pairs| == |pids| / 2
    && PairsOk(parse, r.pairs, pids)
  }

  function Numbers(schedule: Schedule): set<int> {
    set r | r in schedule :: r.number
  }

  predicate Numbered(i: int, n: int) {
    1 <= i <= n
  }

  function Upto(n: int): set<int> {
    set i: int {:trigger Numbered(i, n)} | 1 <= i <= n && Numbered(i, n)
  }

  function ByeList(schedule: Schedule): seq<Pid> {
    if schedule == [] then []
    else
      var last := schedule[|schedule| - 1];
      if last.unmatched.Some? then ByeList(schedule[..|schedule| - 1]) + [last.unmatched.value]
      else ByeList(schedule[..|schedule| - 1])
  }

  /** A readable pair and the number of the round it is in. */
  type Entry = ((Pid, Pid), int)

  function PairEntries(parse: UuidParse, pairs: seq<SchedulePair>, number: int): seq<Entry> {
    if pairs == [] then []
    else
      var last := pairs[|pairs| - 1];
      var key := CanonKey(parse, last.pidA, last.pidB);
      PairEntries(parse, pairs[..|pairs| - 1], number) + (if key.Some? then [(key.value, number)] else [])
  }

  function Entries(parse: UuidParse, schedule: Schedule): seq<Entry> {
    if schedule == [] then []
    else
      var last := schedule[|schedule| - 1];
      Entries(parse, schedule[..|schedule| - 1]) + PairEntries(parse, last.pairs, last.number)
  }

  predicate NoClash(entries: seq<Entry>) {
    forall i, j :: 0 <= i < j < |entries| && entries[i].0 == entries[j].0 ==> entries[i].1 == entries[j].1
  }

  predicate RoundsOk(parse: UuidParse, schedule: Schedule, pids: set<Pid>) {
    forall i :: 0 <= i < |schedule| ==> RoundOk(parse, schedule[i], pids)
  }

  predicate Clean(parse: UuidParse, schedule: Schedule, pids: set<Pid>, numRounds: int) {
    && |schedule| == numRounds && Numbers(schedule) == Upto(numRounds)
    && PresenceOk(schedule, |pids|)
    && RoundsOk(parse, schedule, pids)
    && NoClash(Entries(parse, schedule))
    && Distinct(ByeList(schedule))
  }

  // ----- the report, violation by violation

  type Seen = map<(Pid, Pid), int>
  type Violations = seq<Violation>

  function Note(vs: Violations, bad: bool, v: Violation): Violations {
    if bad then vs + [v] else vs
  }

  predicate Clashes(key: Option<(Pid, Pid)>, number: int, seen: Seen) {
    key.Some? && key.value in seen && seen[key.value] != number
  }

  function ClashOf(key: Option<(Pid, Pid)>, number: int, seen: Seen): Violation {
    if key.Some? && key.value in seen then RepeatedPartner(key.value, seen[key.value], number) else DuplicateInRound(number)
  }

  function PairReport(vs: Violations, parse: UuidParse, n: int, sp: SchedulePair, pids: set<Pid>, used: set<Pid>, seen: Seen): Violations {
    var v1 := Note(vs, sp.pidA !in pids, UnknownParticipant(n, sp.pidA));
    var v2 := Note(v1, sp.pidB !in pids, UnknownParticipant(n, sp.pidB));
    var v3 := Note(v2, sp.pidA == sp.pidB, SelfPair(n, sp.pidA));
    var v4 := Note(v3, sp.pidA != sp.pidB && !OrderOk(parse, sp), WrongCanonicalOrder(n, sp.pidA, sp.pidB));
    var v5 := Note(v4, sp.pidA in used || sp.pidB in used, DuplicateInRound(n));
    var v6 := Note(v5, sp.score < 0.0 || sp.score > 1.0, ScoreOutOfRange(n, sp.score));
    var key := CanonKey(parse, sp.pidA, sp.pidB);
    Note(v6, Clashes(key, n, seen), ClashOf(key, n, seen))
  }

  function SeePair(parse: UuidParse, n: int, sp: SchedulePair, seen: Seen): Seen {
    var key := CanonKey(parse, sp.pidA, sp.pidB);
    if key.None? || Clashes(key, n, seen) then seen else seen[key.value := n]
  }

  function SeePairs(parse: UuidParse, n: int, pairs: seq<SchedulePair>, seen: Seen): Seen {
    if pairs == [] then seen
    else SeePair(parse, n, pairs[|pairs| - 1], SeePairs(parse, n, pairs[..|pairs| - 1], seen))
  }

  function PairsReport(vs: Violations, parse: UuidParse, n: int, pairs: seq<SchedulePair>, pids: set<Pid>, seen: Seen): Violations {
    if pairs == [] then vs
    else
      var init := pairs[..|pairs| - 1];
      PairReport(PairsReport(vs, parse, n, init, pids, seen), parse, n, pairs[|pairs| - 1], pids, Used(init), SeePairs(parse, n, init, seen))
  }

  function PresenceReport(vs: Violations, r: ScheduleRound, n: nat): Violations {
    if n % 2 == 0 then Note(vs, r.unmatched.Some?, UnmatchedInEvenEvent(r.number))
    else Note(vs, r.unmatched.None?, MissingUnmatched(r.number))
  }

  function PresenceReports(vs: Violations, schedule: Schedule, n: nat): Violations {
    if schedule == [] then vs
    else PresenceReport(PresenceReports(vs, schedule[..|schedule| - 1], n), schedule[|schedule| - 1], n)
  }

  function RoundReport(vs: Violations, parse: UuidParse, r: ScheduleRound, pids: set<Pid>, seen: Seen): Violations {
    var p := if r.unmatched.Some? then r.unmatched.value else "";
    var v1 := Note(vs, r.unmatched.Some? && p !in pids, UnknownParticipant(r.number, p));
    var v2 := Note(v1, |r.pairs| != |pids| / 2, WrongPairCount(r.number, |pids| / 2, |r.pairs|));
    var v3 := PairsReport(v2, parse, r.number, r.pairs, pids, seen);
    Note(v3, r.unmatched.Some? && p in Used(r.pairs), UnmatchedPaired(r.number, p))
  }

  function SeeRounds(parse: UuidParse, schedule: Schedule): Seen {
    if schedule == [] then map[]
    else
      var last := schedule[|schedule| - 1];
      SeePairs(parse, last.number, last.pairs, SeeRounds(parse, schedule[..|schedule| - 1]))
  }

  function RoundReports(vs: Violations, parse: UuidParse, schedule: Schedule, pids: set<Pid>): Violations {
    if schedule == [] then vs
    else
      var init := schedule[..|schedule| - 1];
      RoundReport(RoundReports(vs, parse, init, pids), parse, schedule[|schedule| - 1], pids, SeeRounds(parse, init))
  }

  /** Each pid once, in the order of its first bye. */
  function FirstByes(byes: seq<Pid>): seq<Pid> {
    if byes == [] then []
    else
      var init, last := byes[..|byes| - 1], byes[|byes| - 1];
      if last in init then FirstByes(init) else FirstByes(init) + [last]
  }

  function TwiceReport(vs: Violations, keys: seq<Pid>, byes: seq<Pid>): Violations {
    if keys == [] then vs
    else
      var p := keys[|keys| - 1];
      Note(TwiceReport(vs, keys[..|keys| - 1], byes), multiset(byes)[p] > 1, UnmatchedTwice(p, multiset(byes)[p]))
  }

  function HeadReport(schedule: Schedule, numRounds: int): Violations {
    Note(Note([], |schedule| != numRounds, WrongRoundCount(numRounds, |schedule|)),
         Numbers(schedule) != Upto(numRounds), WrongRoundNumbers(Numbers(schedule)))
  }

  function Report(parse: UuidParse, schedule: Schedule, pids: set<Pid>, numRounds: int): Violations {
    var v1 := PresenceReports(HeadReport(schedule, numRounds), schedule, |pids|);
    var v2 := RoundReports(v1, parse, schedule, pids);
    TwiceReport(v2, FirstByes(ByeList(schedule)), ByeList(schedule))
  }

  // ----- the checker

  method CheckPair(vs: Violations, parse: UuidParse, n: int, sp: SchedulePair, pids: set<Pid>, used: set<Pid>, seen: Seen)
    returns (violations: Violations, seen': Seen)
    ensures violations == PairReport(vs, parse, n, sp, pids, used, seen)
    ensures seen' == SeePair(parse, n, sp, seen)
  {
    violations := vs;
    if sp.pidA !in pids {
      violations := violations + [UnknownParticipant(n, sp.pidA)];
    }
    if sp.pidB !in pids {
      violations := violations + [UnknownParticipant(n, sp.pidB)];
    }
    if sp.pidA == sp.pidB {
      violations := violations + [SelfPair(n, sp.pidA)];
    } else if !OrderOk(parse, sp) {
      violations := violations + [WrongCanonicalOrder(n, sp.pidA, sp.pidB)];
    }
    if sp.pidA in used || sp.pidB in used {
      violations := violations + [DuplicateInRound(n)];
    }
    if sp.score < 0.0 || sp.score > 1.0 {
      violations := violations + [ScoreOutOfRange(n, sp.score)];
    }
    var key := CanonKey(parse, sp.pidA, sp.pidB);
    seen' := seen;
    if key.Some? {
      if key.value in seen && seen[key.value] != n {
        violations := violations + [RepeatedPartner(key.value, seen[key.value], n)];
      } else {
        seen' := seen[key.value := n];
      }
    }
  }

  /** The pairs of one round: the used set and the memory of pairs grow as the loop goes. */
  method CheckPairs(vs: Violations, parse: UuidParse, n: int, pairs: seq<SchedulePair>, pids: set<Pid>, seen0: Seen)
    returns (violations: Violations, used: set<Pid>, seen: Seen)
    ensures violations == PairsReport(vs, parse, n, pairs, pids, seen0)
    ensures used == Used(pairs) && seen == SeePairs(parse, n, pairs, seen0)
  {
    hide PairReport, SeePair;
    violations, used, seen := vs, {}, seen0;
    for k := 0 to |pairs|
      invariant violations == PairsReport(vs, parse, n, pairs[..k], pids, seen0)
      invariant used == Used(pairs[..k]) && seen == SeePairs(parse, n, pairs[..k], seen0)
    {
      violations, seen := CheckPair(violations, parse, n, pairs[k], pids, used, seen);
      used := used + {pairs[k].pidA, pairs[k].pidB};
      assert pairs[..k + 1][..k] == pairs[..k];
    }
    assert pairs[..|pairs|] == pairs;
  }

  method CheckRound(vs: Violations, parse: UuidParse, r: ScheduleRound, pids: set<Pid>, seen0: Seen)
    returns (violations: Violations, seen: Seen)
    ensures violations == RoundReport(vs, parse, r, pids, seen0)
    ensures seen == SeePairs(parse, r.number, r.pairs, seen0)
  {
    hide PairsReport, SeePairs, Used;
    violations := vs;
    if r.unmatched.Some? && r.unmatched.value !in pids {
      violations := violations + [UnknownParticipant(r.number, r.unmatched.value)];
    }
    if |r.pairs| != |pids| / 2 {
      violations := violations + [WrongPairCount(r.number, |pids| / 2, |r.pairs|)];
    }
    var used;
    violations, used, seen := CheckPairs(violations, parse, r.number, r.pairs, pids, seen0);
    if r.unmatched.Some? && r.unmatched.value in used {
      violations := violations + [UnmatchedPaired(r.number, r.unmatched.value)];
    }
  }

  method CheckPresence(vs: Violations, schedule: Schedule, n: nat) returns (violations: Violations)
    ensures violations == PresenceReports(vs, schedule, n)
  {
    violations := vs;
    for i := 0 to |schedule|
      invariant violations == PresenceReports(vs, schedule[..i], n)
    {
      var r := schedule[i];
      if n % 2 == 0 {
        if r.unmatched.Some? {
          violations := violations + [UnmatchedInEvenEvent(r.number)];
        }
      } else if r.unmatched.None? {
        violations := violations + [MissingUnmatched(r.number)];
      }
      assert schedule[..i + 1][..i] == schedule[..i];
    }
    assert schedule[..|schedule|] == schedule;
  }

  method CheckRounds(vs: Violations, parse: UuidParse, schedule: Schedule, pids: set<Pid>)
    returns (violations: Violations, keys: seq<Pid>, count: map<Pid, int>)
    ensures violations == RoundReports(vs, parse, schedule, pids)
    ensures keys == FirstByes(ByeList(schedule)) && Tallies(count, ByeList(schedule))
  {
    hide RoundReport, SeePairs, Tallies, FirstByes;
    violations, keys, count := vs, [], map[];
    EmptyTally();
    var seen: Seen := map[];
    for i := 0 to |schedule|
      invariant violations == RoundReports(vs, parse, schedule[..i], pids) && seen == SeeRounds(parse, schedule[..i])
      invariant keys == FirstByes(ByeList(schedule[..i])) && Tallies(count, ByeList(schedule[..i]))
    {
      var r := schedule[i];
      assert schedule[..i + 1][..i] == schedule[..i];
      if r.unmatched.Some? {
        keys, count := CountBye(keys, count, r.unmatched.value, ByeList(schedule[..i]));
      }
      violations, seen := CheckRound(violations, parse, r, pids, seen);
    }
    assert schedule[..|schedule|] == schedule;
  }

  /** One more bye for p: the dictionary counts it and remembers p the first time. */
  method CountBye(keys: seq<Pid>, count: map<Pid, int>, p: Pid, ghost byes: seq<Pid>)
    returns (keys': seq<Pid>, count': map<Pid, int>)
    requires keys == FirstByes(byes) && Tallies(count, byes)
    ensures keys' == FirstByes(byes + [p]) && Tallies(count', byes + [p])
  {
    TallyOne(count, byes, p);
    assert (byes + [p])[..|byes|] == byes;
    if p in count {
      return keys, count[p := count[p] + 1];
    } else {
      return keys + [p], count[p := 1];
    }
  }

  method CheckTwice(vs: Violations, keys: seq<Pid>, ghost byes: seq<Pid>, count: map<Pid, int>) returns (violations: Violations)
    requires Tallies(count, byes) && forall p :: p in keys ==> p in byes
    ensures violations == TwiceReport(vs, keys, byes)
  {
    violations := vs;
    for k := 0 to |keys|
      invariant violations == TwiceReport(vs, keys[..k], byes)
    {
      assert keys[..k + 1][..k] == keys[..k];
      assert keys[k] in byes;
      if count[keys[k]] > 1 {
        violations := violations + [UnmatchedTwice(keys[k], count[keys[k]])];
      }
    }
    assert keys[..|keys|] == keys;
  }

  /** All checks; the result is the report, and it is empty exactly for a clean schedule. */
  method Validate(parse: UuidParse, schedule: Schedule, pids: set<Pid>, numRounds: int) returns (violations: Violations)
    ensures violations == Report(parse, schedule, pids, numRounds)
    ensures violations == [] <==> Clean(parse, schedule, pids, numRounds)
  {
    hide Clean, PresenceReports, RoundReports, TwiceReport, FirstByes, ByeList, Tallies, Numbers, Upto;
    violations := [];
    if |schedule| != numRounds {
      violations := violations + [WrongRoundCount(numRounds, |schedule|)];
    }
    if Numbers(schedule) != Upto(numRounds) {
      violations := violations + [WrongRoundNumbers(Numbers(schedule))];
    }
    violations := CheckPresence(violations, schedule, |pids|);
    var keys, count;
    violations, keys, count := CheckRounds(violations, parse, schedule, pids);
    forall p | p in keys ensures p in ByeList(schedule) {
      FirstByesMember(ByeList(schedule), p);
    }
    violations := CheckTwice(violations, keys, ByeList(schedule), count);
    ReportIsEmpty(parse, schedule, pids, numRounds);
  }

  /** `count` is the dictionary of byes per participant. */
  ghost predicate Tallies(count: map<Pid, int>, byes: seq<Pid>) {
    && (forall p :: p in count <==> p in byes)
    && (forall p :: p in count ==> count[p] == multiset(byes)[p])
  }

  lemma EmptyTally()
    ensures Tallies(map[], []) && FirstByes([]) == []
  {
  }

  lemma TallyOne(count: map<Pid, int>, byes: seq<Pid>, p: Pid)
    requires Tallies(count, byes)
    ensures p in count <==> p in byes
    ensures Tallies(count[p := (if p in count then count[p] else 0) + 1], byes + [p])
  {
    assert p !in byes ==> p !in multiset(byes);
  }

  // ----- the report is empty exactly for a clean schedule

  /** `seen` remembers for every readable pair so far a round it was in. */
  ghost predicate Remembers(seen: map<(Pid, Pid), int>, entries: seq<Entry>) {
    && (forall i :: 0 <= i < |entries| ==> entries[i].0 in seen)
    && (forall k :: k in seen ==> exists i :: 0 <= i < |entries| && entries[i] == (k, seen[k]))
  }

  lemma RememberEntry(seen: map<(Pid, Pid), int>, entries: seq<Entry>, key: (Pid, Pid), number: int)
    requires Remembers(seen, entries)
    ensures key in seen && seen[key] != number ==>
              !NoClash(entries + [(key, number)]) && Remembers(seen, entries + [(key, number)])
    ensures !(key in seen && seen[key] != number) ==>
              (NoClash(entries + [(key, number)]) <==> NoClash(entries)) &&
              Remembers(seen[key := number], entries + [(key, number)])
  {
    var more := entries + [(key, number)];
    if key in seen {
      var i :| 0 <= i < |entries| && entries[i] == (key, seen[key]);
      assert more[i] == (key, seen[key]) && more[|entries|] == (key, number);
    }
    if NoClash(more) {
      forall i, j | 0 <= i < j < |entries| && entries[i].0 == entries[j].0 ensures entries[i].1 == entries[j].1 {
        assert more[i] == entries[i] && more[j] == entries[j];
      }
    }
    var next := if key in seen && seen[key] != number then seen else seen[key := number];
    forall k | k in next ensures exists i :: 0 <= i < |more| && more[i] == (k, next[k]) {
      if k == key && !(key in seen && seen[key] != number) {
        assert more[|entries|] == (k, next[k]);
      } else {
        var i :| 0 <= i < |entries| && entries[i] == (k, seen[k]);
        assert more[i] == (k, next[k]);
      }
    }
    if NoClash(entries) && (key in seen ==> seen[key] == number) {
      NoClashStep(seen, entries, key, number);
    }
  }

  lemma NoClashStep(seen: map<(Pid, Pid), int>, entries: seq<Entry>, key: (Pid, Pid), number: int)
    requires Remembers(seen, entries) && NoClash(entries) && (key in seen ==> seen[key] == number)
    ensures NoClash(entries + [(key, number)])
  {
    forall i | 0 <= i < |entries| && entries[i].0 == key ensures entries[i].1 == number {
      assert key in seen;
      var k :| 0 <= k < |entries| && entries[k] == (key, seen[key]);
    }
  }

  lemma PairReportIsEmpty(vs: Violations, parse: UuidParse, n: int, sp: SchedulePair, pids: set<Pid>, used: set<Pid>, seen: Seen)
    ensures PairReport(vs, parse, n, sp, pids, used, seen) == [] <==>
            vs == [] && PairOk(parse, sp, pids, used) && !Clashes(CanonKey(parse, sp.pidA, sp.pidB), n, seen)
  {
    hide OrderOk, Clashes, ClashOf, CanonKey;
  }

  lemma PairsOkLast(parse: UuidParse, pairs: seq<SchedulePair>, pids: set<Pid>)
    requires pairs != []
    ensures var init := pairs[..|pairs| - 1];
            PairsOk(parse, pairs, pids) <==> PairsOk(parse, init, pids) && PairOk(parse, pairs[|pairs| - 1], pids, Used(init))
  {
    hide PairOk, Used;
    var init := pairs[..|pairs| - 1];
    assert forall k :: 0 <= k < |init| ==> init[..k] == pairs[..k];
  }

  lemma {:induction false} PairsReportIsEmpty(vs: Violations, parse: UuidParse, n: int, pairs: seq<SchedulePair>, pids: set<Pid>, seen: Seen, e: seq<Entry>)
    requires Remembers(seen, e)
    ensures Remembers(SeePairs(parse, n, pairs, seen), e + PairEntries(parse, pairs, n))
    ensures NoClash(e) ==> (PairsReport(vs, parse, n, pairs, pids, seen) == [] <==>
                            vs == [] && PairsOk(parse, pairs, pids) && NoClash(e + PairEntries(parse, pairs, n)))
    ensures PairsReport(vs, parse, n, pairs, pids, seen) == [] ==> vs == []
  {
    hide PairReport, PairOk, Remembers, NoClash, CanonKey, Used;
    if pairs == [] {
      assert e + PairEntries(parse, pairs, n) == e;
    } else {
      var init, sp := pairs[..|pairs| - 1], pairs[|pairs| - 1];
      var mid, seen1 := e + PairEntries(parse, init, n), SeePairs(parse, n, init, seen);
      PairsReportIsEmpty(vs, parse, n, init, pids, seen, e);
      PairsOkLast(parse, pairs, pids);
      PairReportIsEmpty(PairsReport(vs, parse, n, init, pids, seen), parse, n, sp, pids, Used(init), seen1);
      var key := CanonKey(parse, sp.pidA, sp.pidB);
      if key.Some? {
        RememberEntry(seen1, mid, key.value, n);
        assert e + PairEntries(parse, pairs, n) == mid + [(key.value, n)];
        NoClashPrefix(mid, [(key.value, n)]);
      } else {
        assert e + PairEntries(parse, pairs, n) == mid;
      }
    }
  }

  lemma NoClashPrefix(e: seq<Entry>, more: seq<Entry>)
    ensures NoClash(e + more) ==> NoClash(e)
  {
    forall i, j | 0 <= i < j < |e| && NoClash(e + more) && e[i].0 == e[j].0 ensures e[i].1 == e[j].1 {
      assert (e + more)[i] == e[i] && (e + more)[j] == e[j];
    }
  }

  lemma RoundReportIsEmpty(vs: Violations, parse: UuidParse, r: ScheduleRound, pids: set<Pid>, seen: Seen, e: seq<Entry>)
    requires Remembers(seen, e)
    ensures NoClash(e) ==> (RoundReport(vs, parse, r, pids, seen) == [] <==>
            vs == [] && RoundOk(parse, r, pids) && NoClash(e + PairEntries(parse, r.pairs, r.number)))
    ensures RoundReport(vs, parse, r, pids, seen) == [] ==> vs == []
  {
    hide PairsReport, PairsOk, Remembers, NoClash, PairEntries, Used, SeePairs;
    var p := if r.unmatched.Some? then r.unmatched.value else "";
    var v1 := Note(vs, r.unmatched.Some? && p !in pids, UnknownParticipant(r.number, p));
    var v2 := Note(v1, |r.pairs| != |pids| / 2, WrongPairCount(r.number, |pids| / 2, |r.pairs|));
    PairsReportIsEmpty(v2, parse, r.number, r.pairs, pids, seen, e);
  }

  lemma RoundsOkLast(parse: UuidParse, schedule: Schedule, pids: set<Pid>)
    requires schedule != []
    ensures RoundsOk(parse, schedule, pids) <==>
            RoundsOk(parse, schedule[..|schedule| - 1], pids) && RoundOk(parse, schedule[|schedule| - 1], pids)
  {
    hide RoundOk;
  }

  lemma {:induction false} RoundReportsIsEmpty(vs: Violations, parse: UuidParse, schedule: Schedule, pids: set<Pid>)
    ensures Remembers(SeeRounds(parse, schedule), Entries(parse, schedule))
    ensures RoundReports(vs, parse, schedule, pids) == [] <==>
            vs == [] && RoundsOk(parse, schedule, pids) && NoClash(Entries(parse, schedule))
    decreases |schedule|
  {
    if schedule == [] {
      assert Entries(parse, schedule) == [];
    } else {
      RoundReportsIsEmpty(vs, parse, schedule[..|schedule| - 1], pids);
      RoundReportsStep(vs, parse, schedule, pids);
    }
  }

  lemma RoundReportsStep(vs: Violations, parse: UuidParse, schedule: Schedule, pids: set<Pid>)
    requires schedule != []
    requires var init := schedule[..|schedule| - 1];
             Remembers(SeeRounds(parse, init), Entries(parse, init)) &&
             (RoundReports(vs, parse, init, pids) == [] <==> vs == [] && RoundsOk(parse, init, pids) && NoClash(Entries(parse, init)))
    ensures Remembers(SeeRounds(parse, schedule), Entries(parse, schedule))
    ensures RoundReports(vs, parse, schedule, pids) == [] <==>
            vs == [] && RoundsOk(parse, schedule, pids) && NoClash(Entries(parse, schedule))
  {
    hide RoundReport, RoundOk, RoundsOk, Remembers, NoClash, PairEntries, SeePairs, PairsReport, PairsOk;
    var init, r := schedule[..|schedule| - 1], schedule[|schedule| - 1];
    var seen, e := SeeRounds(parse, init), Entries(parse, init);
    RoundsOkLast(parse, schedule, pids);
    PairsReportIsEmpty([], parse, r.number, r.pairs, pids, seen, e);
    NoClashPrefix(e, PairEntries(parse, r.pairs, r.number));
    RoundReportIsEmpty(RoundReports(vs, parse, init, pids), parse, r, pids, seen, e);
  }

  lemma {:induction false} PresenceIsEmpty(vs: Violations, schedule: Schedule, n: nat)
    ensures PresenceReports(vs, schedule, n) == [] <==> vs == [] && PresenceOk(schedule, n)
  {
    if schedule != [] {
      var init, last := schedule[..|schedule| - 1], schedule[|schedule| - 1];
      PresenceIsEmpty(vs, init, n);
      assert schedule == init + [last];
      assert PresenceOk(schedule, n) <==> PresenceOk(init, n) && ByePresence(last, n);
    }
  }

  lemma {:induction false} FirstByesMember(byes: seq<Pid>, p: Pid)
    ensures p in FirstByes(byes) <==> p in byes
  {
    if byes != [] {
      var init, last := byes[..|byes| - 1], byes[|byes| - 1];
      FirstByesMember(init, p);
      assert byes == init + [last];
    }
  }

  lemma {:induction false} TwiceIsEmpty(vs: Violations, keys: seq<Pid>, byes: seq<Pid>)
    ensures TwiceReport(vs, keys, byes) == [] <==> vs == [] && forall p :: p in keys ==> multiset(byes)[p] <= 1
  {
    if keys != [] {
      var init, last := keys[..|keys| - 1], keys[|keys| - 1];
      TwiceIsEmpty(vs, init, byes);
      assert keys == init + [last];
    }
  }

  lemma DistinctByes(byes: seq<Pid>)
    ensures Distinct(byes) <==> forall p :: p in byes ==> multiset(byes)[p] <= 1
  {
    if Distinct(byes) {
      forall p | p in byes ensures multiset(byes)[p] <= 1 {
        DistinctOccursOnce(byes, p);
      }
    } else {
      var i, j :| 0 <= i < j < |byes| && byes[i] == byes[j];
      TwiceInSeq(byes, i, j);
      assert byes[i] in byes;
    }
  }

  /** The checker reports nothing exactly when every rule holds. */
  lemma ReportIsEmpty(parse: UuidParse, schedule: Schedule, pids: set<Pid>, numRounds: int)
    ensures Report(parse, schedule, pids, numRounds) == [] <==> Clean(parse, schedule, pids, numRounds)
  {
    hide RoundReports, RoundsOk, NoClash, Entries, ByeList, FirstByes, TwiceReport, PresenceReports, PresenceOk;
    hide Numbers, Upto, Remembers;
    var byes, head := ByeList(schedule), HeadReport(schedule, numRounds);
    PresenceIsEmpty(head, schedule, |pids|);
    RoundReportsIsEmpty(PresenceReports(head, schedule, |pids|), parse, schedule, pids);
    TwiceIsEmpty(RoundReports(PresenceReports(head, schedule, |pids|), parse, schedule, pids), FirstByes(byes), byes);
    DistinctByes(byes);
    forall p ensures p in FirstByes(byes) <==> p in byes {
      FirstByesMember(byes, p);
    }
  }
}

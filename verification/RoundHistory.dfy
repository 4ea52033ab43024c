/** The rounds built so far, and what they mean for the forbidden sets and the byes. */
module RoundHistory {
  import opened Wrappers
  import opened Sets
  import opened Graph
  import opened Greedy

  type Rounds = seq<seq<Edge>>
  type Byes = seq<Option<int>>

  /** Everyone who is paired in a round: all of them, or all but the one sitting out. */
  function Working(n: nat, bye: Option<int>): set<int> {
    if bye.Some? then Range(n) - {bye.value} else Range(n)
  }

  ghost predicate IsRound(ps: seq<Edge>, w: set<int>) {
    PerfectOn(ps, w) && Ascending(ps)
  }

  predicate MetBefore(rounds: Rounds, i: int, j: int) {
    exists r :: 0 <= r < |rounds| && Met(rounds[r], i, j)
  }

  /** The forbidden sets hold exactly the partners of the rounds so far. */
  ghost predicate Tracks(f: Forbidden, rounds: Rounds) {
    forall i, j :: 0 <= i < |f| ==> (j in f[i] <==> MetBefore(rounds, i, j))
  }

  ghost predicate NoRepeats(rounds: Rounds) {
    forall r, s, k :: 0 <= r < s < |rounds| && 0 <= k < |rounds[s]| ==>
      !Met(rounds[r], rounds[s][k].a, rounds[s][k].b)
  }

  /** Nobody sits out when n is even; when n is odd one person per round does, never twice. */
  predicate ByesOk(n: nat, byes: Byes) {
    && (n % 2 == 0 ==> forall r :: 0 <= r < |byes| ==> byes[r] == None)
    && (n % 2 == 1 ==> forall r :: 0 <= r < |byes| ==> byes[r].Some? && 0 <= byes[r].value < n)
    && (n % 2 == 1 ==> forall r, s :: 0 <= r < s < |byes| ==> byes[r] != byes[s])
  }

  ghost predicate AllRounds(n: nat, rounds: Rounds, byes: Byes) {
    |rounds| == |byes| && forall r :: 0 <= r < |rounds| ==> IsRound(rounds[r], Working(n, byes[r]))
  }

  ghost predicate Bounded(f: Forbidden, k: int) {
    forall i :: 0 <= i < |f| ==> |f[i]| <= k
  }

  ghost predicate History(n: nat, rounds: Rounds, byes: Byes, f: Forbidden) {
    && |f| == n && Mutual(f) && Tracks(f, rounds) && Bounded(f, |rounds|)
    && AllRounds(n, rounds, byes) && NoRepeats(rounds) && ByesOk(n, byes)
  }

  lemma MetBeforeAppend(rounds: Rounds, ps: seq<Edge>, i: int, j: int)
    ensures MetBefore(rounds + [ps], i, j) <==> MetBefore(rounds, i, j) || Met(ps, i, j)
  {
    hide Met;
    var more: Rounds := rounds + [ps];
    assert more[|rounds|] == ps;
    if r :| 0 <= r < |rounds| && Met(rounds[r], i, j) { assert Met(more[r], i, j); }
    if r :| 0 <= r < |more| && Met(more[r], i, j) && r < |rounds| { assert Met(rounds[r], i, j); }
  }

  lemma TracksAppend(f: Forbidden, rounds: Rounds, ps: seq<Edge>, g: Forbidden)
    requires Tracks(f, rounds) && Records(f, ps, g)
    ensures Tracks(g, rounds + [ps])
  {
    hide Met, MetBefore;
    forall i, j | 0 <= i < |g| ensures j in g[i] <==> MetBefore(rounds + [ps], i, j) {
      MetBeforeAppend(rounds, ps, i, j);
      assert j in g[i] <==> j in f[i] || Met(ps, i, j);
    }
  }

  lemma NoRepeatsAppend(f: Forbidden, rounds: Rounds, ps: seq<Edge>)
    requires Tracks(f, rounds) && NoRepeats(rounds) && Avoids(ps, f)
    ensures NoRepeats(rounds + [ps])
  {
    hide Met;
    var more: Rounds := rounds + [ps];
    forall r, s, k | 0 <= r < s < |more| && 0 <= k < |more[s]|
      ensures !Met(more[r], more[s][k].a, more[s][k].b)
    {
      if s == |rounds| {
        assert Allowed(f, ps[k].a, ps[k].b);
        assert !MetBefore(rounds, ps[k].a, ps[k].b);
      }
    }
  }

  lemma BoundedAppend(f: Forbidden, ps: seq<Edge>, g: Forbidden, k: int)
    requires IsMatching(ps) && Records(f, ps, g) && Bounded(f, k)
    ensures Bounded(g, k + 1)
  {
    forall i | 0 <= i < |g| ensures |g[i]| <= k + 1 {
      RecordsCard(f, ps, g, i);
    }
  }

  /** One more round keeps the whole history in order. */
  lemma AppendRound(n: nat, rounds: Rounds, byes: Byes, f: Forbidden, ps: seq<Edge>, bye: Option<int>, g: Forbidden)
    requires History(n, rounds, byes, f) && ByesOk(n, byes + [bye])
    requires IsRound(ps, Working(n, bye)) && Avoids(ps, f) && Records(f, ps, g)
    ensures History(n, rounds + [ps], byes + [bye], g)
  {
    RecordsKeepsMutual(f, ps, g);
    RecordsSize(f, ps, g);
    TracksAppend(f, rounds, ps, g);
    RoundIsMatching(ps, Working(n, bye));
    BoundedAppend(f, ps, g, |rounds|);
    NoRepeatsAppend(f, rounds, ps);
    hide Mutual, Tracks, Bounded, NoRepeats, ByesOk, IsRound, Avoids, Records, Working, IsMatching;
  }

  lemma RecordsSize(f: Forbidden, ps: seq<Edge>, g: Forbidden)
    requires Records(f, ps, g)
    ensures |g| == |f|
  {
  }

  lemma RoundIsMatching(ps: seq<Edge>, w: set<int>)
    requires IsRound(ps, w)
    ensures IsMatching(ps)
  {
  }

  // ----- the bye

  /** Nobody has sat out exactly when the counter is still zero. */
  ghost predicate Counted(unmatched: seq<int>, n: nat, byes: Byes) {
    |unmatched| == n && forall i :: 0 <= i < n ==> (unmatched[i] == 0 <==> Some(i) !in byes)
  }

  /** Of those who never sat out, b has the most people left to meet; ties go to the larger rank. */
  ghost predicate ByeChoice(b: int, unmatched: seq<int>, f: Forbidden)
    requires |unmatched| == |f|
  {
    && 0 <= b < |f| && unmatched[b] == 0
    && forall i :: 0 <= i < |f| && unmatched[i] == 0 ==> |f[i]| > |f[b]| || (|f[i]| == |f[b]| && i <= b)
  }

  /** If everybody has sat out, at least n rounds have been played. */
  lemma AllSatOut(unmatched: seq<int>, n: nat, byes: Byes)
    requires Counted(unmatched, n, byes)
    requires forall i :: 0 <= i < n ==> unmatched[i] != 0
    ensures |byes| >= n
  {
    var who := set o | o in byes;
    SeqSetCard(byes);
    var xs := seq(n, i => Some(i));
    DistinctSeqFits(xs, who);
  }

  lemma {:induction false} SeqSetCard<T(!new)>(xs: seq<T>)
    ensures |set x | x in xs| <= |xs|
  {
    if xs == [] {
      assert (set x | x in xs) == {};
    } else {
      var last, rest := xs[|xs| - 1], xs[..|xs| - 1];
      SeqSetCard(rest);
      assert (set x | x in xs) == (set x | x in rest) + {last};
    }
  }

  lemma WorkingCard(n: nat, bye: Option<int>)
    requires ByesOk(n, [bye])
    ensures |Working(n, bye)| == 2 * (n / 2)
    ensures forall i :: i in Working(n, bye) ==> 0 <= i < n
  {
    RangeCard(n);
    assert [bye][0] == bye;
    if n % 2 == 1 {
      assert Within(bye.value, n);
    }
  }

  lemma ByesOkLast(n: nat, byes: Byes, bye: Option<int>)
    requires ByesOk(n, byes + [bye])
    ensures ByesOk(n, [bye])
  {
    assert (byes + [bye])[|byes|] == bye;
  }

  /** In the first half of all possible rounds there is always a perfect matching left. */
  lemma EarlyRoundExists(n: nat, rounds: Rounds, byes: Byes, f: Forbidden, bye: Option<int>)
    requires History(n, rounds, byes, f) && ByesOk(n, byes + [bye]) && |rounds| < n / 2
    ensures HasPerfect(Working(n, bye), f)
  {
    ByesOkLast(n, byes, bye);
    WorkingCard(n, bye);
    FewPartnersHasPerfect(Working(n, bye), f, n / 2);
  }

  /** k rounds can be played in such a way that no further round exists. */
  ghost predicate Blocked(n: nat, k: nat) {
    exists rounds: Rounds, byes: Byes, f: Forbidden, bye: Option<int> ::
      History(n, rounds, byes, f) && |rounds| == k && ByesOk(n, byes + [bye]) && !HasPerfect(Working(n, bye), f)
  }
}

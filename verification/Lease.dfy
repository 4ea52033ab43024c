/**
 The leader lease: one shared row, taken over when it has expired, and every interleaving of the
 database statements of concurrent callers whose clock readings may be stale.
 */
module Lease {
  import opened Wrappers

  datatype LeaseRow = LeaseRow(leader: string, acquired: int, expires: int, version: nat)

  // ----- the single database statements

  /** UPDATE of a row that has expired; None when it matches nothing. */
  function TakeOver(row: Option<LeaseRow>, id: string, now: int, ttl: int): Option<LeaseRow> {
    if row.Some? && row.value.expires < now then Some(LeaseRow(id, now, now + ttl, row.value.version + 1)) else None
  }

  /** Whether the caller holds a live lease. */
  predicate Holds(row: LeaseRow, id: string, now: int) {
    row.leader == id && row.expires >= now
  }

  function RenewRow(row: Option<LeaseRow>, id: string, now: int, ttl: int): Option<LeaseRow> {
    if row.Some? && Holds(row.value, id, now) then Some(row.value.(expires := now + ttl)) else row
  }

  const EPOCH := 0

  function ReleaseRow(row: Option<LeaseRow>, id: string): Option<LeaseRow> {
    if row.Some? && row.value.leader == id then Some(row.value.(expires := EPOCH)) else row
  }

  function CurrentLeader(row: Option<LeaseRow>, now: int): Option<LeaseRow> {
    if row.Some? && row.value.expires > now then row else None
  }

  predicate IsLeader(row: Option<LeaseRow>, id: string, now: int) {
    CurrentLeader(row, now).Some? && CurrentLeader(row, now).value.leader == id
  }

  predicate SameTenure(q: LeaseRow, r: LeaseRow) {
    q.leader == r.leader && q.acquired == r.acquired && q.version == r.version
  }

  /** An acquisition as its caller sees it when nobody comes in between. */
  function AcquireRow(row: Option<LeaseRow>, id: string, now: int, ttl: int): (Option<LeaseRow>, bool) {
    var taken := TakeOver(row, id, now, ttl);
    if taken.Some? then (taken, true)
    else if row.Some? then (row, Holds(row.value, id, now))
    else (Some(LeaseRow(id, now, now + ttl, 1)), true)
  }

  // ----- the table

  class LeaseTable {
    var row: Option<LeaseRow>

    constructor ()
      ensures row == None
    {
      row := None;
    }

    method AcquireLease(id: string, now: int, ttl: int) returns (ok: bool)
      modifies this
      ensures (row, ok) == AcquireRow(old(row), id, now, ttl)
      // granted exactly if nobody else holds a live lease; a refusal leaves that holder's row alone
      ensures ok <==> (old(row).Some? && old(row).value.expires >= now ==> old(row).value.leader == id)
      ensures ok ==> row.Some? && row.value.leader == id && (ttl >= 0 ==> row.value.expires >= now)
      ensures !ok ==> row == old(row) && row.value.leader != id && row.value.expires >= now
      // the version tells a new tenure from a lease that was held already
      ensures ok && old(row).Some? && row != old(row) ==> row.value.version == old(row).value.version + 1
    {
      if row.Some? && row.value.expires < now {
        row := Some(LeaseRow(id, now, now + ttl, row.value.version + 1));
        return true;
      }
      if row.Some? {
        return row.value.leader == id && row.value.expires >= now;
      }
      row := Some(LeaseRow(id, now, now + ttl, 1));
      return true;
    }

    method RenewLease(id: string, now: int, ttl: int) returns (updated: bool)
      modifies this
      ensures row == RenewRow(old(row), id, now, ttl)
      ensures updated == (old(row).Some? && Holds(old(row).value, id, now))
      // a leader stays one, nobody becomes one, and the tenure is the same as before
      ensures IsLeader(old(row), id, now) ==> updated
      ensures IsLeader(row, id, now) <==> updated && ttl > 0
      ensures updated ==> row.Some? && SameTenure(row.value, old(row).value) && row.value.expires == now + ttl
      ensures forall x, t :: x != id ==> (IsLeader(row, x, t) <==> IsLeader(old(row), x, t))
    {
      updated := row.Some? && row.value.leader == id && row.value.expires >= now;
      if updated {
        row := Some(row.value.(expires := now + ttl));
      }
    }

    method ReleaseLease(id: string) returns (updated: bool)
      modifies this
      ensures row == ReleaseRow(old(row), id)
      ensures updated == (old(row).Some? && old(row).value.leader == id)
      // the caller leads at no later time, others are not touched, and anybody can take over at once
      ensures forall t :: t >= EPOCH ==> !IsLeader(row, id, t)
      ensures forall x, t :: x != id ==> (IsLeader(row, x, t) <==> IsLeader(old(row), x, t))
      ensures updated ==> forall x, t, ttl :: t > EPOCH ==> AcquireRow(row, x, t, ttl).1
    {
      updated := row.Some? && row.value.leader == id;
      if updated {
        row := Some(row.value.(expires := EPOCH));
      }
    }

    method GetCurrentLeader(now: int) returns (lease: Option<LeaseRow>)
      ensures lease == CurrentLeader(row, now)
      // at most one leader, and as long as there is one nobody else is granted the lease
      ensures forall x :: IsLeader(row, x, now) <==> lease.Some? && lease.value.leader == x
      ensures lease.Some? ==> forall x, ttl :: AcquireRow(row, x, now, ttl).1 <==> x == lease.value.leader
    {
      if row.Some? && row.value.expires > now {
        return row;
      }
      return None;
    }
  }

  /**
   When an acquisition succeeds, the caller is the leader at that moment if and only if the lease
   it held already reaches beyond the moment, or the new one lasts at all. A lease that expires at
   this very moment is still acquired and already leaderless.
   */
  lemma AcquiredMeansLeaderIff(row: Option<LeaseRow>, id: string, now: int, ttl: int)
    requires AcquireRow(row, id, now, ttl).1
    ensures IsLeader(AcquireRow(row, id, now, ttl).0, id, now) <==>
            if row.Some? && Holds(row.value, id, now) then row.value.expires > now else ttl > 0
  {
  }

  // ----- concurrent callers

  /** Where an acquisition stands between its statements. */
  datatype Phase = BeforeUpdate | BeforeCheck | BeforeInsert | Done(granted: bool)

  datatype Call =
    | Acquiring(id: string, now: int, ttl: int, phase: Phase)
    | Renewing(id: string, now: int, ttl: int, finished: bool)

  /** The shared row, the clock, and the calls under way with the time each of them read. */
  datatype World = World(row: Option<LeaseRow>, clock: int, calls: map<nat, Call>)

  datatype Move =
    | Tick(to: int)
    | BeginAcquire(c: nat, id: string, ttl: int)
    | BeginRenew(c: nat, id: string, ttl: int)
    | Statement(c: nat)
    | Release(id: string)

  /** The next statement of a call, whatever others did since it read the clock. */
  function Execute(w: World, c: nat): World
    requires c in w.calls
  {
    match w.calls[c]
    case Renewing(id, now, ttl, finished) =>
      if finished then w
      else w.(row := RenewRow(w.row, id, now, ttl), calls := w.calls[c := Renewing(id, now, ttl, true)])
    case Acquiring(id, now, ttl, phase) =>
      match phase
      case BeforeUpdate =>
        var taken := TakeOver(w.row, id, now, ttl);
        if taken.Some? then w.(row := taken, calls := w.calls[c := Acquiring(id, now, ttl, Done(true))])
        else w.(calls := w.calls[c := Acquiring(id, now, ttl, BeforeCheck)])
      case BeforeCheck =>
        var next := if w.row.None? then BeforeInsert else Done(Holds(w.row.value, id, now));
        w.(calls := w.calls[c := Acquiring(id, now, ttl, next)])
      case BeforeInsert =>
        if w.row.None? then
          w.(row := Some(LeaseRow(id, now, now + ttl, 1)), calls := w.calls[c := Acquiring(id, now, ttl, Done(true))])
        else w.(calls := w.calls[c := Acquiring(id, now, ttl, Done(false))])
      case Done(_) => w
  }

  function Step(w: World, m: Move): World {
    match m
    case Tick(to) => if to > w.clock then w.(clock := to) else w
    case BeginAcquire(c, id, ttl) =>
      if c in w.calls then w else w.(calls := w.calls[c := Acquiring(id, w.clock, ttl, BeforeUpdate)])
    case BeginRenew(c, id, ttl) =>
      if c in w.calls then w else w.(calls := w.calls[c := Renewing(id, w.clock, ttl, false)])
    case Statement(c) => if c in w.calls then Execute(w, c) else w
    case Release(id) => w.(row := ReleaseRow(w.row, id))
  }

  function Run(w: World, ms: seq<Move>): World {
    if ms == [] then w else Step(Run(w, ms[..|ms| - 1]), ms[|ms| - 1])
  }

  /** Clock readings are never ahead of the clock. */
  ghost predicate Past(w: World) {
    forall c :: c in w.calls ==> w.calls[c].now <= w.clock
  }

  lemma {:induction false} RunKeepsPast(w: World, ms: seq<Move>)
    requires Past(w)
    ensures Past(Run(w, ms)) && w.clock <= Run(w, ms).clock
  {
    if ms != [] {
      RunKeepsPast(w, ms[..|ms| - 1]);
    }
  }

  /** The move does not let this id renew or release. */
  predicate LeavesAlone(w: World, m: Move, id: string) {
    && (m.Release? ==> m.id != id)
    && (m.Statement? && m.c in w.calls && w.calls[m.c].Renewing? ==> w.calls[m.c].id != id)
  }

  predicate AllLeaveAlone(w: World, ms: seq<Move>, id: string) {
    ms == [] || (AllLeaveAlone(w, ms[..|ms| - 1], id) && LeavesAlone(Run(w, ms[..|ms| - 1]), ms[|ms| - 1], id))
  }

  predicate Granted(w: World, c: nat) {
    c in w.calls && w.calls[c].Acquiring? && w.calls[c].phase == Done(true)
  }

  lemma StepHolds(w: World, m: Move, r: LeaseRow)
    requires Past(w) && w.row == Some(r) && w.clock <= r.expires && LeavesAlone(w, m, r.leader)
    ensures Step(w, m).row == Some(r)
    ensures forall c :: Granted(Step(w, m), c) && Step(w, m).calls[c].id != r.leader ==> Granted(w, c)
  {
  }

  /**
   Until the clock passes the expiry a leader was granted, and unless the leader itself renews or
   releases, no interleaving changes the row, and nobody else's acquisition is granted.
   */
  lemma {:induction false} HeldUntilExpiry(w: World, ms: seq<Move>, r: LeaseRow)
    requires Past(w) && w.row == Some(r) && AllLeaveAlone(w, ms, r.leader)
    requires Run(w, ms).clock <= r.expires
    ensures Run(w, ms).row == Some(r)
    ensures forall c :: Granted(Run(w, ms), c) && Run(w, ms).calls[c].id != r.leader ==> Granted(w, c)
  {
    hide LeavesAlone, Past;
    if ms != [] {
      var front := ms[..|ms| - 1];
      var v := Run(w, front);
      RunKeepsPast(w, front);
      ClockGrows(v, ms[|ms| - 1]);
      HeldUntilExpiry(w, front, r);
      StepHolds(v, ms[|ms| - 1], r);
      CallsKeepIds(v, ms[|ms| - 1]);
    }
  }

  lemma ClockGrows(w: World, m: Move)
    ensures w.clock <= Step(w, m).clock
  {
  }

  lemma CallsKeepIds(w: World, m: Move)
    ensures forall c :: c in w.calls ==> c in Step(w, m).calls && Step(w, m).calls[c].id == w.calls[c].id
  {
  }

  /** A renewal is one statement: once it was executed, the call has no further effect in any run. */
  lemma {:induction false} RenewalRunsOnce(w: World, c: nat, ms: seq<Move>)
    requires c in w.calls && w.calls[c].Renewing?
    ensures var u := Run(Step(w, Statement(c)), ms);
            && c in u.calls && u.calls[c] == w.calls[c].(finished := true)
            && Step(u, Statement(c)) == u
  {
    if ms != [] {
      RenewalRunsOnce(w, c, ms[..|ms| - 1]);
    }
  }

  /** What a later row has to do with an earlier one. */
  predicate Succeeds(r: LeaseRow, q: LeaseRow) {
    && r.version <= q.version
    && (q.version == r.version ==> q.leader == r.leader && q.acquired == r.acquired)
  }

  /** Versions never decrease, the row never disappears, and a version belongs to a single leader. */
  lemma {:induction false} VersionPinsLeader(w: World, ms: seq<Move>)
    requires w.row.Some?
    ensures Run(w, ms).row.Some? && Succeeds(w.row.value, Run(w, ms).row.value)
  {
    hide Step;
    if ms != [] {
      var front := ms[..|ms| - 1];
      VersionPinsLeader(w, front);
      StepSucceeds(Run(w, front), ms[|ms| - 1]);
    }
  }

  lemma StepSucceeds(w: World, m: Move)
    requires w.row.Some?
    ensures Step(w, m).row.Some? && Succeeds(w.row.value, Step(w, m).row.value)
  {
  }

  /** A change of leader always raises the version, and needs an expiry that has passed. */
  lemma TakeoverNeedsExpiry(w: World, m: Move)
    requires Past(w) && w.row.Some? && Step(w, m).row.Some?
    ensures var r, q := w.row.value, Step(w, m).row.value;
            q.leader != r.leader || q.version != r.version ==> r.expires < w.clock && q.version == r.version + 1
  {
  }

  /** Whatever came before, three statements in a row come to what an undisturbed acquisition does. */
  lemma ThreeStatementsAcquire(w: World, c: nat)
    requires c in w.calls && w.calls[c].Acquiring? && w.calls[c].phase == BeforeUpdate
    ensures var call := w.calls[c]; var (row, ok) := AcquireRow(w.row, call.id, call.now, call.ttl);
            var v := Run(w, [Statement(c), Statement(c), Statement(c)]);
            v.row == row && v.clock == w.clock && v.calls == w.calls[c := call.(phase := Done(ok))]
  {
    var ms := [Statement(c), Statement(c), Statement(c)];
    assert ms[..2][..1][..0] == [] && ms[..2][..1] == ms[..1];
    assert Run(w, ms[..1]) == Execute(w, c);
    assert Run(w, ms[..2]) == Step(Execute(w, c), Statement(c));
    assert Run(w, ms) == Step(Step(Execute(w, c), Statement(c)), Statement(c));
  }

  /** The expiry that a granting statement stands for: written by it, or found by it. */
  function GrantedUntil(w: World, c: nat): int
    requires c in w.calls
  {
    if w.calls[c].Acquiring? && w.calls[c].phase == BeforeCheck && w.row.Some? then w.row.value.expires
    else w.calls[c].now + w.calls[c].ttl
  }

  /**
   In any world, a statement that grants the lease leaves the caller's row, and the caller is the
   leader at that moment if and only if the clock has not reached the granted time: for a lease
   taken over or inserted that is its reading plus the time to live.
   */
  lemma GrantIsLiveIff(v: World, c: nat)
    requires !Granted(v, c) && Granted(Step(v, Statement(c)), c)
    ensures var u := Step(v, Statement(c));
            && c in v.calls && u.row.Some? && u.row.value.leader == v.calls[c].id
            && u.row.value.expires == GrantedUntil(v, c)
            && (IsLeader(u.row, v.calls[c].id, u.clock) <==> GrantedUntil(v, c) > u.clock)
  {
  }

  // ----- tenures that were lost

  predicate Leads(row: Option<LeaseRow>, id: string) {
    row.Some? && row.value.leader == id
  }

  /** None of the moves grants an acquisition to this id. */
  predicate NeverGranted(w: World, ms: seq<Move>, id: string) {
    ms == [] ||
    (var v := Run(w, ms[..|ms| - 1]);
     NeverGranted(w, ms[..|ms| - 1], id) && !GrantsTo(v, ms[|ms| - 1], id))
  }

  predicate GrantsTo(v: World, m: Move, id: string) {
    m.Statement? && m.c in v.calls && v.calls[m.c].id == id && !Granted(v, m.c) && Granted(Step(v, m), m.c)
  }

  /**
   Once another id leads, and until an acquisition is granted to the deposed id again, none of its
   renewals and releases has any effect on the row, whichever calls are still on their way.
   */
  lemma {:induction false} DeposedChangesNothing(w: World, ms: seq<Move>, id: string)
    requires w.row.Some? && !Leads(w.row, id) && NeverGranted(w, ms, id)
    ensures var v := Run(w, ms);
            && v.row.Some? && !Leads(v.row, id) && Step(v, Release(id)).row == v.row
            && forall c :: c in v.calls && v.calls[c].Renewing? && v.calls[c].id == id ==> Step(v, Statement(c)).row == v.row
  {
    if ms != [] {
      DeposedChangesNothing(w, ms[..|ms| - 1], id);
      StaysDeposed(Run(w, ms[..|ms| - 1]), ms[|ms| - 1], id);
    }
  }

  lemma StaysDeposed(v: World, m: Move, id: string)
    requires v.row.Some? && !Leads(v.row, id) && !GrantsTo(v, m, id)
    ensures Step(v, m).row.Some? && !Leads(Step(v, m).row, id)
  {
  }

  /** A renewal that has read the clock and not written yet. */
  predicate Pending(v: World, c: nat) {
    c in v.calls && v.calls[c].Renewing? && !v.calls[c].finished
  }

  /** The pending renewal finds its own id's row not expired at the time that it read. */
  predicate Applies(v: World, c: nat)
    requires Pending(v, c)
  {
    v.row.Some? && Holds(v.row.value, v.calls[c].id, v.calls[c].now)
  }

  /**
   What a renewal does when it is executed at last, in any world at all: the tenure stays; the row
   stays exactly if the renewal does not apply or writes the expiry that is there; the expiry goes
   back exactly if it applies and its reading plus its time to live lies before it; and it ends
   the leadership exactly if it applies and that time has passed.
   */
  lemma LateRenewalIff(v: World, c: nat)
    requires Pending(v, c)
    ensures var u := Step(v, Statement(c)); var until := v.calls[c].now + v.calls[c].ttl;
            && (u.row == v.row <==> !Applies(v, c) || until == v.row.value.expires)
            && (v.row.Some? ==> u.row.Some? && SameTenure(u.row.value, v.row.value)
                                && (u.row.value.expires < v.row.value.expires <==> Applies(v, c) && until < v.row.value.expires)
                                && (EndsLeadership(v, u, v.calls[c].id) <==> Applies(v, c) && until <= v.clock < v.row.value.expires))
  {
  }

  predicate EndsLeadership(v: World, u: World, id: string) {
    IsLeader(v.row, id, v.clock) && !IsLeader(u.row, id, v.clock)
  }

  /** A release has an effect exactly on the row of its own id that was not released before. */
  lemma ReleaseIff(v: World, id: string)
    ensures Step(v, Release(id)).row == v.row <==> !Leads(v.row, id) || v.row.value.expires == EPOCH
  {
  }

  /**
   The condition a caller can check. From a lease that was granted and not renewed or released
   since, in every run up to its expiry, a late renewal by its own leader with the same time to
   live moves the expiry back if and only if it read the clock before the lease was acquired:
   that is, if it was begun in an earlier tenure.
   */
  lemma RenewalFromEarlierTenure(w: World, ms: seq<Move>, r: LeaseRow, c: nat)
    requires Past(w) && w.row == Some(r) && AllLeaveAlone(w, ms, r.leader) && Run(w, ms).clock <= r.expires
    requires Pending(Run(w, ms), c) && Run(w, ms).calls[c].id == r.leader
    requires r.expires == r.acquired + Run(w, ms).calls[c].ttl
    ensures var v := Run(w, ms); var u := Step(v, Statement(c));
            && v.row == Some(r) && u.row.Some?
            && (u.row.value.expires < r.expires <==> v.calls[c].now < r.acquired)
            && (v.calls[c].now >= r.acquired ==> u.row.value.expires == v.calls[c].now + v.calls[c].ttl >= r.expires)
  {
    HeldUntilExpiry(w, ms, r);
    RunKeepsPast(w, ms);
    LateRenewalIff(Run(w, ms), c);
  }

  /** A row that a granting statement wrote meets that condition on its dates. */
  lemma GrantIsDated(v: World, c: nat)
    requires !Granted(v, c) && Granted(Step(v, Statement(c)), c) && Step(v, Statement(c)).row != v.row
    ensures var r := Step(v, Statement(c)).row;
            c in v.calls && r.Some? && r.value.expires == r.value.acquired + v.calls[c].ttl && r.value.acquired == v.calls[c].now
  {
  }

  function Moves(): seq<Move> {
    [BeginRenew(0, "a", 30), Tick(31), BeginAcquire(1, "b", 30), Statement(1), Release("b"),
     Tick(40), BeginAcquire(2, "a", 30), Statement(2), Statement(0)]
  }

  /**
   A tenure lost and regained: "a" begins a renewal, loses the lease to "b", who releases it, and
   acquires it again until 70. The old renewal then ends the new lease at once.
   */
  lemma LostTenureExample()
    ensures var w := World(Some(LeaseRow("a", 0, 30, 1)), 0, map[]);
            && Run(w, Moves()[..8]).row == Some(LeaseRow("a", 40, 70, 3)) && IsLeader(Run(w, Moves()[..8]).row, "a", 40)
            && Run(w, Moves()).row == Some(LeaseRow("a", 40, 30, 3)) && !IsLeader(Run(w, Moves()).row, "a", 40)
            && Run(w, Moves()).clock == 40
  {
    var w, ms := World(Some(LeaseRow("a", 0, 30, 1)), 0, map[]), Moves();
    assert ms[..0] == [] && ms[..9] == ms;
    LosesTenure(w);
    RunNext(w, ms, 6);
    RunNext(w, ms, 7);
    RunNext(w, ms, 8);
  }

  lemma LosesTenure(w: World)
    requires w == World(Some(LeaseRow("a", 0, 30, 1)), 0, map[])
    ensures Run(w, Moves()[..6]) == World(Some(LeaseRow("b", 31, 0, 2)), 40,
      map[0 := Renewing("a", 0, 30, false), 1 := Acquiring("b", 31, 30, Done(true))])
  {
    var ms := Moves();
    assert ms[..0] == [];
    RunNext(w, ms, 0);
    RunNext(w, ms, 1);
    RunNext(w, ms, 2);
    assert Run(w, ms[..3]) == World(Some(LeaseRow("a", 0, 30, 1)), 31,
      map[0 := Renewing("a", 0, 30, false), 1 := Acquiring("b", 31, 30, BeforeUpdate)]);
    RunNext(w, ms, 3);
    RunNext(w, ms, 4);
    RunNext(w, ms, 5);
  }

  lemma RunNext(w: World, ms: seq<Move>, k: nat)
    requires k < |ms|
    ensures Run(w, ms[..k + 1]) == Step(Run(w, ms[..k]), ms[k])
  {
    assert ms[..k + 1][..k] == ms[..k];
  }

  /** A stale reading at work: the lease is granted although the granted time is over. */
  lemma StaleGrantIsOver(id: string, ttl: nat)
    ensures var w := Run(World(None, 0, map[]), [BeginAcquire(0, id, ttl), Statement(0), Statement(0), Tick(ttl + 1), Statement(0)]);
            Granted(w, 0) && w.row == Some(LeaseRow(id, 0, ttl, 1)) && !IsLeader(w.row, id, w.clock)
  {
    var w0 := World(None, 0, map[]);
    var ms := [BeginAcquire(0, id, ttl), Statement(0), Statement(0), Tick(ttl + 1), Statement(0)];
    assert ms[..4][..3][..2][..1][..0] == [];
    assert ms[..4][..3] == ms[..3] && ms[..3][..2] == ms[..2] && ms[..2][..1] == ms[..1];
    var w1 := Step(w0, ms[0]);
    var w2 := Step(w1, ms[1]);
    var w3 := Step(w2, ms[2]);
    var w4 := Step(w3, ms[3]);
    assert Run(w0, ms[..1]) == w1;
    assert Run(w0, ms[..2]) == w2;
    assert Run(w0, ms[..3]) == w3;
    assert Run(w0, ms[..4]) == w4;
    assert Run(w0, ms) == Step(w4, ms[4]);
  }
}

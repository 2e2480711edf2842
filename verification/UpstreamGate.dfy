/**
 * The gate of one account: a lease row, and a first-in first-out list of waiters.
 *
 * acquireUpstream reads the clock, expires waiters and then awaits; the rest of it runs as a
 * later turn with the clock value it read.  So one acquire is the two turns Start and Finish,
 * and any other turns may fall between them.
 */
module UpstreamGate {
  import opened Common

  const LEASE_MS := 11 * 60_000
  const MIN_INTERVAL_MS := 1_000
  const WAITER_MS := 150_000

  datatype Row = Row(leaseId: string, leaseUntil: int, nextAllowedAt: int)

  datatype Waiter = Waiter(id: string, expiresAt: int)

  /** An acquire between its two turns. */
  datatype Acquire = Acquire(waiter: string, now: int)

  datatype Gate = Gate(row: Option<Row>, waiters: seq<Waiter>, acquires: map<nat, Acquire>, clock: int, drawn: set<string>)

  const NEW_GATE := Gate(None, [], map[], 0, {})

  datatype Answer = Granted(leaseId: string) | Retry(afterMs: int)

  datatype Event =
    | Start(call: nat, waiter: string, now: int)
    | Finish(call: nat, leaseId: string)
    | Cancel(waiter: string)
    | Expire(now: int)
    | Release(leaseId: string, now: int)

  // ---- the waiter list ----

  function Live(waiters: seq<Waiter>, now: int): seq<Waiter> {
    if waiters == [] then []
    else (if waiters[0].expiresAt <= now then [] else [waiters[0]]) + Live(waiters[1..], now)
  }

  lemma LiveUnfold(waiters: seq<Waiter>, now: int)
    ensures waiters == [] ==> Live(waiters, now) == []
    ensures waiters != [] && waiters[0].expiresAt <= now ==> Live(waiters, now) == Live(waiters[1..], now)
    ensures waiters != [] && waiters[0].expiresAt > now ==> Live(waiters, now) == [waiters[0]] + Live(waiters[1..], now)
  {}

  function Dropped(waiters: seq<Waiter>, id: string): seq<Waiter> {
    if waiters == [] then []
    else (if waiters[0].id == id then [] else [waiters[0]]) + Dropped(waiters[1..], id)
  }

  /** Insert at the end, or prolong in place. */
  function Queued(waiters: seq<Waiter>, w: Waiter): seq<Waiter> {
    if waiters == [] then [w]
    else if waiters[0].id == w.id then [w] + waiters[1..]
    else [waiters[0]] + Queued(waiters[1..], w)
  }

  function BlockedUntil(row: Option<Row>): int {
    if row.None? then 0 else Max(row.value.leaseUntil, row.value.nextAllowedAt)
  }

  // ---- one turn ----

  /** The waiter list as the second turn of an acquire leaves it before it looks at the lease. */
  function Enrolled(g: Gate, a: Acquire): seq<Waiter> {
    if a.waiter == "" then g.waiters else Queued(g.waiters, Waiter(a.waiter, a.now + WAITER_MS))
  }

  /** Whether it is this acquire's turn: its waiter is at the head, or nobody waits. */
  predicate IsHead(waiters: seq<Waiter>, waiter: string) {
    if waiter == "" then waiters == [] else waiters != [] && waiters[0].id == waiter
  }

  predicate MayGrant(g: Gate, a: Acquire) {
    IsHead(Enrolled(g, a), a.waiter) && BlockedUntil(g.row) <= a.now
  }

  function Decide(g: Gate, a: Acquire, leaseId: string): Answer {
    if !IsHead(Enrolled(g, a), a.waiter) then Retry(100)
    else if BlockedUntil(g.row) > a.now then Retry(Max(50, Min(1_000, BlockedUntil(g.row) - a.now)))
    else Granted(leaseId)
  }

  function Finished(g: Gate, a: Acquire, leaseId: string): Gate {
    var waiters := Enrolled(g, a);
    if !MayGrant(g, a) then g.(waiters := waiters)
    else
      g.(row := Some(Row(leaseId, a.now + LEASE_MS, if g.row.Some? then g.row.value.nextAllowedAt else 0)),
         waiters := if a.waiter == "" then waiters else Dropped(waiters, a.waiter),
         drawn := g.drawn + {leaseId})
  }

  function Released(g: Gate, leaseId: string, now: int): Gate {
    if g.row.Some? && g.row.value.leaseId == leaseId then g.(row := Some(Row("", 0, now + MIN_INTERVAL_MS))) else g
  }

  /** The clock never runs backwards; a drawn lease id is new and not empty. */
  predicate Allowed(g: Gate, e: Event) {
    match e
    case Start(call, _, now) => call !in g.acquires && now >= g.clock
    case Finish(call, leaseId) => call in g.acquires && leaseId != "" && leaseId !in g.drawn
    case Cancel(_) => true
    case Expire(now) => now >= g.clock
    case Release(_, now) => now >= g.clock
  }

  function Next(g: Gate, e: Event): Gate
    requires Allowed(g, e)
  {
    match e
    case Start(call, waiter, now) => g.(waiters := Live(g.waiters, now), acquires := g.acquires[call := Acquire(waiter, now)], clock := now)
    case Finish(call, leaseId) => var h := Finished(g, g.acquires[call], leaseId); h.(acquires := h.acquires - {call})
    case Cancel(waiter) => if waiter == "" then g else g.(waiters := Dropped(g.waiters, waiter))
    case Expire(now) => g.(waiters := Live(g.waiters, Max(0, now)), clock := now)
    case Release(leaseId, now) => Released(g, leaseId, now).(clock := now)
  }

  ghost predicate IsRun(trace: seq<Gate>, events: seq<Event>) {
    && |trace| == |events| + 1
    && forall i :: 0 <= i < |events| ==> Allowed(trace[i], events[i]) && trace[i + 1] == Next(trace[i], events[i])
  }

  // ---- grants and releases ----

  predicate Grants(g: Gate, e: Event)
    requires Allowed(g, e)
  {
    e.Finish? && MayGrant(g, g.acquires[e.call])
  }

  /** The clock value that the granted acquire read. */
  function GrantTime(g: Gate, e: Event): int
    requires Allowed(g, e) && Grants(g, e)
  {
    g.acquires[e.call].now
  }

  predicate Releases(g: Gate, e: Event) {
    e.Release? && g.row.Some? && g.row.value.leaseId == e.leaseId
  }

  ghost predicate QuietFrom(trace: seq<Gate>, events: seq<Event>, i: nat, j: nat)
    requires IsRun(trace, events) && i <= j <= |events|
  {
    forall k :: i <= k < j ==> !Releases(trace[k], events[k])
  }

  /** Until a release takes effect, the lease of a grant keeps the gate shut for eleven minutes. */
  lemma {:induction false} LeaseStands(trace: seq<Gate>, events: seq<Event>, i: nat, j: nat)
    requires IsRun(trace, events) && i < j <= |events| && Grants(trace[i], events[i]) && QuietFrom(trace, events, i + 1, j)
    ensures BlockedUntil(trace[j].row) >= GrantTime(trace[i], events[i]) + LEASE_MS
    decreases j
  {
    hide Live, Dropped, Queued, IsHead;
    if j > i + 1 {
      LeaseStands(trace, events, i, j - 1);
      assert trace[j - 1 + 1] == Next(trace[j - 1], events[j - 1]);
    } else {
      assert trace[i + 1] == Next(trace[i], events[i]);
    }
  }

  /** Two grants with no release between them are at least eleven minutes apart. */
  lemma GrantsElevenMinutesApart(trace: seq<Gate>, events: seq<Event>, i: nat, j: nat)
    requires IsRun(trace, events) && i < j < |events| && Grants(trace[i], events[i]) && Grants(trace[j], events[j])
    requires QuietFrom(trace, events, i + 1, j)
    ensures GrantTime(trace[j], events[j]) >= GrantTime(trace[i], events[i]) + LEASE_MS
  {
    hide Live, Dropped, Queued;
    LeaseStands(trace, events, i, j);
  }

  lemma {:induction false} SpacingStands(trace: seq<Gate>, events: seq<Event>, i: nat, j: nat)
    requires IsRun(trace, events) && i < j <= |events| && Releases(trace[i], events[i])
    ensures trace[j].row.Some? && trace[j].row.value.nextAllowedAt >= events[i].now + MIN_INTERVAL_MS && trace[j].clock >= events[i].now
    decreases j
  {
    hide Live, Dropped, Queued, IsHead;
    if j > i + 1 {
      SpacingStands(trace, events, i, j - 1);
      assert trace[j - 1 + 1] == Next(trace[j - 1], events[j - 1]);
    } else {
      assert trace[i + 1] == Next(trace[i], events[i]);
    }
  }

  /** A grant after a release read the clock at least a second after it. */
  lemma GrantsSpacedFromRelease(trace: seq<Gate>, events: seq<Event>, i: nat, j: nat)
    requires IsRun(trace, events) && i < j < |events| && Releases(trace[i], events[i]) && Grants(trace[j], events[j])
    ensures GrantTime(trace[j], events[j]) >= events[i].now + MIN_INTERVAL_MS
  {
    hide Live, Dropped, Queued, IsHead;
    SpacingStands(trace, events, i, j);
  }

  // ---- lease ids ----

  /** The row's lease id is one that was drawn, or empty. */
  ghost predicate IdsDrawn(g: Gate) {
    "" !in g.drawn && (g.row.Some? ==> g.row.value.leaseId == "" || g.row.value.leaseId in g.drawn)
  }

  lemma {:induction false} IdsStayDrawn(trace: seq<Gate>, events: seq<Event>, n: nat)
    requires IsRun(trace, events) && trace[0] == NEW_GATE && n < |trace|
    ensures IdsDrawn(trace[n])
  {
    hide Live, Dropped, Queued, MayGrant, Enrolled;
    if n > 0 {
      IdsStayDrawn(trace, events, n - 1);
      assert trace[n - 1 + 1] == Next(trace[n - 1], events[n - 1]);
    }
  }

  /** id was drawn, and the row no longer carries it. */
  predicate Superseded(g: Gate, id: string) {
    id in g.drawn && (g.row.Some? ==> g.row.value.leaseId != id)
  }

  lemma {:induction false} SupersededStays(trace: seq<Gate>, events: seq<Event>, i: nat, j: nat, id: string)
    requires IsRun(trace, events) && i <= j < |trace| && Superseded(trace[i], id) && id != ""
    ensures Superseded(trace[j], id)
    decreases j
  {
    hide Live, Dropped, Queued, MayGrant, Enrolled;
    if i < j {
      SupersededStays(trace, events, i, j - 1, id);
      assert trace[j - 1 + 1] == Next(trace[j - 1], events[j - 1]);
    }
  }

  /** A lease leaves the row by its release or by the grant of another. */
  lemma IdLeavesRow(trace: seq<Gate>, events: seq<Event>, i: nat, id: string)
    requires IsRun(trace, events) && trace[0] == NEW_GATE && i < |events|
    requires trace[i].row.Some? && trace[i].row.value.leaseId == id && id != ""
    requires Grants(trace[i], events[i]) || Releases(trace[i], events[i])
    ensures Superseded(trace[i + 1], id)
  {
    hide Live, Dropped, Queued, MayGrant, Enrolled;
    IdsStayDrawn(trace, events, i);
    assert trace[i + 1] == Next(trace[i], events[i]);
  }

  /**
   * Once the row no longer carries a drawn lease id, released or superseded by another grant, no later
   * release of that id ever changes the row.
   */
  lemma LateReleaseIsInert(trace: seq<Gate>, events: seq<Event>, i: nat, j: nat, id: string)
    requires IsRun(trace, events) && trace[0] == NEW_GATE && i <= j < |events| && Superseded(trace[i], id)
    requires events[j].Release? && events[j].leaseId == id
    ensures trace[j + 1].row == trace[j].row
  {
    hide Live, Dropped, Queued, MayGrant, Enrolled;
    IdsStayDrawn(trace, events, i);
    SupersededStays(trace, events, i, j, id);
    assert trace[j + 1] == Next(trace[j], events[j]);
  }

  /** So each lease is released effectively at most once, and never after it was superseded. */
  lemma ReleasedAtMostOnce(trace: seq<Gate>, events: seq<Event>, i: nat, j: nat)
    requires IsRun(trace, events) && trace[0] == NEW_GATE && i < j < |events|
    requires trace[i].row.Some? && trace[i].row.value.leaseId != ""
    requires Grants(trace[i], events[i]) || Releases(trace[i], events[i])
    requires Releases(trace[j], events[j])
    ensures events[j].leaseId != trace[i].row.value.leaseId
  {
    hide Live, Dropped, Queued, MayGrant, Enrolled;
    var id := trace[i].row.value.leaseId;
    IdLeavesRow(trace, events, i, id);
    SupersededStays(trace, events, i + 1, j, id);
  }

  const SPARE_RELEASE := [Start(0, "", 0), Finish(0, "lease"), Release("lease", 10), Release("", 500)]

  /** The states of the run in which a release with an empty id follows the release of the lease. */
  const SPARE_TRACE := [
    NEW_GATE,
    Gate(None, [], map[0 := Acquire("", 0)], 0, {}),
    Gate(Some(Row("lease", LEASE_MS, 0)), [], map[], 0, {"lease"}),
    Gate(Some(Row("", 0, 10 + MIN_INTERVAL_MS)), [], map[], 10, {"lease"}),
    Gate(Some(Row("", 0, 500 + MIN_INTERVAL_MS)), [], map[], 500, {"lease"})]

  /** An empty id is nobody's lease, yet it matches the idle row: releasing it keeps the gate shut for longer. */
  lemma EmptyReleaseRenewsSpacing()
    ensures IsRun(SPARE_TRACE, SPARE_RELEASE) && SPARE_TRACE[0] == NEW_GATE
    ensures BlockedUntil(SPARE_TRACE[3].row) == 1_010 && BlockedUntil(SPARE_TRACE[4].row) == 1_500
  {
    var t := SPARE_TRACE;
    assert Next(t[0], SPARE_RELEASE[0]) == t[1];
    assert Next(t[1], SPARE_RELEASE[1]) == t[2];
    assert Next(t[2], SPARE_RELEASE[2]) == t[3];
    assert Next(t[3], SPARE_RELEASE[3]) == t[4];
  }

  // ---- first in, first out ----

  predicate Waits(waiters: seq<Waiter>, id: string) {
    exists i :: 0 <= i < |waiters| && waiters[i].id == id
  }

  /** a stands before b in the list. */
  predicate Before(waiters: seq<Waiter>, a: string, b: string) {
    exists i, j :: 0 <= i < j < |waiters| && waiters[i].id == a && waiters[j].id == b
  }

  lemma WaitsUnfold(waiters: seq<Waiter>, id: string)
    requires waiters != []
    ensures Waits(waiters, id) <==> waiters[0].id == id || Waits(waiters[1..], id)
  {
    if i :| 0 <= i < |waiters[1..]| && waiters[1..][i].id == id {
      assert waiters[i + 1].id == id;
    }
    if i :| 0 <= i < |waiters| && waiters[i].id == id {
      assert i > 0 ==> waiters[1..][i - 1].id == id;
    }
  }

  lemma BeforeUnfold(waiters: seq<Waiter>, a: string, b: string)
    requires waiters != []
    ensures Before(waiters, a, b) <==> (waiters[0].id == a && Waits(waiters[1..], b)) || Before(waiters[1..], a, b)
  {
    var tail := waiters[1..];
    if i, j :| 0 <= i < j < |tail| && tail[i].id == a && tail[j].id == b {
      assert waiters[i + 1].id == a && waiters[j + 1].id == b;
    }
    if j :| 0 <= j < |tail| && tail[j].id == b {
      assert waiters[j + 1].id == b;
    }
    if i, j :| 0 <= i < j < |waiters| && waiters[i].id == a && waiters[j].id == b {
      assert tail[j - 1].id == b;
      assert i > 0 ==> tail[i - 1].id == a;
    }
  }

  lemma NothingBefore(a: string, b: string)
    ensures !Before([], a, b) && !Waits([], a)
  {}

  lemma {:induction false} LiveKeepsOrder(l: seq<Waiter>, now: int, a: string, b: string)
    ensures Waits(Live(l, now), a) ==> Waits(l, a)
    ensures Waits(Live(l, now), b) ==> Waits(l, b)
    ensures Before(Live(l, now), a, b) ==> Before(l, a, b)
  {
    hide Waits, Before;
    if l == [] {
      NothingBefore(a, b);
      NothingBefore(b, a);
    } else {
      LiveKeepsOrder(l[1..], now, a, b);
      Unfold(l, a, b);
      if l[0].expiresAt > now {
        assert Live(l, now)[1..] == Live(l[1..], now);
        Unfold(Live(l, now), a, b);
      } else {
        assert Live(l, now) == Live(l[1..], now);
      }
    }
  }

  lemma {:induction false} DroppedKeepsOrder(l: seq<Waiter>, id: string, a: string, b: string)
    ensures Waits(Dropped(l, id), a) ==> Waits(l, a)
    ensures Waits(Dropped(l, id), b) ==> Waits(l, b)
    ensures Before(Dropped(l, id), a, b) ==> Before(l, a, b)
  {
    hide Waits, Before;
    if l == [] {
      NothingBefore(a, b);
      NothingBefore(b, a);
    } else {
      DroppedKeepsOrder(l[1..], id, a, b);
      Unfold(l, a, b);
      if l[0].id != id {
        assert Dropped(l, id)[1..] == Dropped(l[1..], id);
        Unfold(Dropped(l, id), a, b);
      } else {
        assert Dropped(l, id) == Dropped(l[1..], id);
      }
    }
  }

  /** A waiter already in the list keeps its place; a new one goes to the end. */
  lemma {:induction false} QueuedKeepsOrder(l: seq<Waiter>, w: Waiter, a: string, b: string)
    requires Waits(l, b)
    ensures Waits(Queued(l, w), b)
    ensures Before(Queued(l, w), a, b) ==> Before(l, a, b)
  {
    hide Waits, Before;
    if l == [] {
      NothingBefore(a, b);
      NothingBefore(b, a);
    } else {
      Unfold(l, a, b);
      Unfold(Queued(l, w), a, b);
      assert Queued(l, w)[1..] == if l[0].id == w.id then l[1..] else Queued(l[1..], w);
      if Waits(l[1..], b) {
        QueuedKeepsOrder(l[1..], w, a, b);
      } else if l[0].id != w.id {
        QueuedAfter(l[1..], w, b);
        NotBeforeAbsent(Queued(l[1..], w), a, b);
      }
    }
  }

  lemma Unfold(l: seq<Waiter>, a: string, b: string)
    requires l != []
    ensures Waits(l, a) <==> l[0].id == a || Waits(l[1..], a)
    ensures Waits(l, b) <==> l[0].id == b || Waits(l[1..], b)
    ensures Before(l, a, b) <==> (l[0].id == a && Waits(l[1..], b)) || Before(l[1..], a, b)
  {
    hide Waits, Before;
    WaitsUnfold(l, a);
    WaitsUnfold(l, b);
    BeforeUnfold(l, a, b);
  }

  lemma {:induction false} QueuedAfter(l: seq<Waiter>, w: Waiter, b: string)
    requires !Waits(l, b) && w.id != b
    ensures !Waits(Queued(l, w), b)
  {
    hide Waits;
    var m := Queued(l, w);
    if l == [] {
      WaitsUnfold(m, b);
      NothingBefore(b, b);
      assert m[1..] == [];
    } else {
      WaitsUnfold(l, b);
      WaitsUnfold(m, b);
      assert m[1..] == if l[0].id == w.id then l[1..] else Queued(l[1..], w);
      if l[0].id != w.id { QueuedAfter(l[1..], w, b); }
    }
  }

  lemma NotBeforeAbsent(l: seq<Waiter>, a: string, b: string)
    requires !Waits(l, b)
    ensures !Before(l, a, b)
  {}

  /** a is queued and b is not ahead of it. */
  predicate NotOvertaken(waiters: seq<Waiter>, a: string, b: string) {
    Waits(waiters, a) && !Before(waiters, b, a)
  }

  lemma EnrolledKeepsPlace(g: Gate, q: Acquire, a: string, b: string)
    requires NotOvertaken(g.waiters, a, b)
    ensures NotOvertaken(Enrolled(g, q), a, b)
  {
    hide Waits, Before, Queued;
    if q.waiter != "" { QueuedKeepsOrder(g.waiters, Waiter(q.waiter, q.now + WAITER_MS), b, a); }
  }

  /** As long as a stays queued, no turn puts b ahead of it. */
  lemma TurnKeepsPlace(g: Gate, e: Event, a: string, b: string)
    requires Allowed(g, e) && NotOvertaken(g.waiters, a, b) && Waits(Next(g, e).waiters, a)
    ensures NotOvertaken(Next(g, e).waiters, a, b)
  {
    hide Waits, Before, Live, Dropped, Queued, Enrolled, MayGrant;
    match e
    case Start(call, waiter, now) => LiveKeepsOrder(g.waiters, now, b, a);
    case Finish(call, leaseId) =>
      var q := g.acquires[call];
      EnrolledKeepsPlace(g, q, a, b);
      DroppedKeepsOrder(Enrolled(g, q), q.waiter, b, a);
    case Cancel(waiter) => DroppedKeepsOrder(g.waiters, waiter, b, a);
    case Expire(now) => LiveKeepsOrder(g.waiters, Max(0, now), b, a);
    case Release(leaseId, now) =>
  }

  /** The waiter granted is the head of the list, so nobody queued before it. */
  lemma GrantIsNotOvertaking(g: Gate, e: Event, a: string, b: string)
    requires Allowed(g, e) && Grants(g, e) && NotOvertaken(g.waiters, a, b) && a != b
    ensures g.acquires[e.call].waiter != b
  {
    hide Queued, Enrolled;
    var q := g.acquires[e.call];
    EnrolledKeepsPlace(g, q, a, b);
    if q.waiter == b && b != "" {
      HeadIsBefore(Enrolled(g, q), b, a);
    }
  }

  lemma HeadIsBefore(l: seq<Waiter>, h: string, a: string)
    requires l != [] && l[0].id == h && Waits(l, a) && a != h
    ensures Before(l, h, a)
  {
    var i :| 0 <= i < |l| && l[i].id == a;
    assert l[0].id == h && l[i].id == a;
  }

  lemma {:induction false} PlaceStands(trace: seq<Gate>, events: seq<Event>, i: nat, j: nat, a: string, b: string)
    requires IsRun(trace, events) && i <= j < |trace| && NotOvertaken(trace[i].waiters, a, b)
    requires forall k :: i <= k <= j ==> Waits(trace[k].waiters, a)
    ensures NotOvertaken(trace[j].waiters, a, b)
    decreases j
  {
    hide Waits, Before, Next, Allowed;
    if i < j {
      PlaceStands(trace, events, i, j - 1, a, b);
      assert trace[j - 1 + 1] == Next(trace[j - 1], events[j - 1]);
      TurnKeepsPlace(trace[j - 1], events[j - 1], a, b);
    }
  }

  /** First in, first out: while a waits, b is never granted unless it was ahead of a. */
  lemma FirstInFirstOut(trace: seq<Gate>, events: seq<Event>, i: nat, j: nat, a: string, b: string)
    requires IsRun(trace, events) && i <= j < |events| && a != b && NotOvertaken(trace[i].waiters, a, b)
    requires Grants(trace[j], events[j]) && trace[j].acquires[events[j].call].waiter == b
    ensures exists k :: i <= k <= j && !Waits(trace[k].waiters, a)
  {
    hide Waits, Before, MayGrant, Next;
    if forall k :: i <= k <= j ==> Waits(trace[k].waiters, a) {
      PlaceStands(trace, events, i, j, a, b);
      GrantIsNotOvertaking(trace[j], events[j], a, b);
    }
  }

  // ---- the tables ----

  /** The two tables of one account and the acquires under way. */
  class GateTables {
    var row: Option<Row>
    var waiters: seq<Waiter>
    var acquires: map<nat, Acquire>
    ghost var clock: int
    ghost var drawn: set<string>

    ghost function State(): Gate
      reads this
    {
      Gate(row, waiters, acquires, clock, drawn)
    }

    constructor ()
      ensures State() == NEW_GATE
    {
      row, waiters, acquires, clock, drawn := None, [], map[], 0, {};
    }

    /** DELETE ... WHERE expires_at <= now */
    method ExpireWaiters(now: int)
      modifies this`waiters
      ensures waiters == Live(old(waiters), now)
    {
      hide Live;
      var kept: seq<Waiter> := [];
      var i := 0;
      assert waiters[0..] == waiters;
      while i < |waiters|
        invariant waiters == old(waiters) && i <= |waiters| && Live(waiters, now) == kept + Live(waiters[i..], now)
      {
        LiveUnfold(waiters[i..], now);
        assert waiters[i..][1..] == waiters[i + 1..];
        if waiters[i].expiresAt > now {
          kept := kept + [waiters[i]];
        }
        i := i + 1;
      }
      assert waiters[i..] == [] && kept + [] == kept;
      LiveUnfold([], now);
      waiters := kept;
    }

    /** acquireUpstream up to its await. */
    method StartAcquire(call: nat, waiter: string, now: int)
      requires Allowed(State(), Start(call, waiter, now))
      modifies this
      ensures State() == Next(old(State()), Start(call, waiter, now))
    {
      hide Live;
      ExpireWaiters(now);
      acquires := acquires[call := Acquire(waiter, now)];
      clock := now;
    }

    /** acquireUpstream after its await, with the clock value read before it. */
    method FinishAcquire(call: nat, leaseId: string) returns (answer: Answer)
      requires Allowed(State(), Finish(call, leaseId))
      modifies this
      ensures State() == Next(old(State()), Finish(call, leaseId))
      ensures answer == Decide(old(State()), old(acquires)[call], leaseId)
      ensures answer.Granted? <==> Grants(old(State()), Finish(call, leaseId))
    {
      hide Queued, Dropped;
      var a := acquires[call];
      acquires := acquires - {call};
      if a.waiter != "" {
        waiters := Queued(waiters, Waiter(a.waiter, a.now + WAITER_MS));
        if waiters == [] || waiters[0].id != a.waiter {
          return Retry(100);
        }
      } else if waiters != [] {
        return Retry(100);
      }
      var blockedUntil := BlockedUntil(row);
      if blockedUntil > a.now {
        return Retry(Max(50, Min(1_000, blockedUntil - a.now)));
      }
      row := Some(Row(leaseId, a.now + LEASE_MS, if row.Some? then row.value.nextAllowedAt else 0));
      if a.waiter != "" {
        waiters := Dropped(waiters, a.waiter);
      }
      drawn := drawn + {leaseId};
      return Granted(leaseId);
    }

    method CancelWaiter(waiter: string)
      modifies this`waiters
      ensures State() == Next(old(State()), Cancel(waiter))
    {
      if waiter != "" {
        waiters := Dropped(waiters, waiter);
      }
    }

    method ExpireUpstreamWaiters(now: int)
      requires Allowed(State(), Expire(now))
      modifies this
      ensures State() == Next(old(State()), Expire(now))
    {
      ExpireWaiters(Max(0, now));
      clock := now;
    }

    method ReleaseUpstream(leaseId: string, now: int)
      requires Allowed(State(), Release(leaseId, now))
      modifies this
      ensures State() == Next(old(State()), Release(leaseId, now))
    {
      if row.Some? && row.value.leaseId == leaseId {
        row := Some(Row("", 0, now + MIN_INTERVAL_MS));
      }
      clock := now;
    }
  }
}

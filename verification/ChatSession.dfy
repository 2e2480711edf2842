/**
 * One chat session: a singleton row that leases, commits, rebinds and abandons turns.
 *
 * Every method body runs up to its SQL write in one turn, so one event is one method call; an
 * acquire or seed that finds an expired row only deletes it, and its retry is another event.
 * Random ids are fresh draws.  Task anchors are carried as their encoded text, in normal form.
 */
module ChatSession {
  import opened Common
  import opened Utf8

  const SESSION_TTL_MS := 30 * 24 * 60 * 60_000
  const CHAT_LEASE_MS := 15 * 60_000

  const MAX_STATE_BYTES := 192 * 1_024
  const MAX_PORTABLE_BYTES := 64 * 1_024
  const RESERVE_BYTES := 1_024
  const MAX_SNAPSHOT_BYTES := 64 * 1_024
  const MAX_ARGUMENT_BYTES := 96 * 1_024
  const MAX_UPSTREAM_ID_BYTES := 4 * 1_024
  const MAX_ACCOUNT_ID_BYTES := 1_024
  const MAX_TOOL_ID_BYTES := 4 * 1_024
  const MAX_TOOL_NAME_BYTES := 1_024
  const MAX_ALIAS_BYTES := 128
  const UUID_BYTES := 36

  const NO_CALLS := "[]"

  datatype Coords = Coords(conversation: string, session: string, account: string, locked: bool, committed: bool)

  datatype Hold = Hold(leaseId: string, leaseUntil: int, completedId: string, updatedAt: int)

  datatype Work = Work(callId: string, toolName: string, toolArguments: string, ledger: string)

  datatype Alias = Alias(generation: string, group: string, expiresAt: int)

  datatype Row = Row(coords: Coords, hold: Hold, work: Work, anchors: string, tail: string, alias: Option<Alias>)

  /** The row, every id drawn so far, and the lease handed out last. */
  datatype Session = Session(row: Option<Row>, drawn: set<string>, latest: string)

  const NEW_SESSION := Session(None, {}, "")

  datatype Event =
    | Acquire(now: int, lease: string, conversation: string, session: string)
    | Bind(lease: string, account: string, now: int)
    | Switch(lease: string, expected: string, next: string, conversation: string, session: string, now: int)
    | Rebind(lease: string, expected: string, next: string, conversation: string, session: string, now: int)
    | MergeAnchors(lease: string, merged: string, now: int)
    | MarkLocked(lease: string, account: string, now: int)
    | Commit(lease: string, account: string, conversation: string, session: string, newAnchors: Option<string>, finalTail: Option<string>, now: int)
    | Replace(completed: string, account: string, conversation: string, session: string, newTail: string, now: int)
    | ReleaseLease(lease: string, now: int)
    | Abandon(lease: string, detach: bool, now: int)
    | Seed(conversation: string, session: string, account: string, work: Work, anchors: string, newTail: string, alias: Alias, now: int)
    | Evict(generation: string, now: int)
    | ExpireIdle(now: int)

  // ---- sizes ----

  function AliasBytes(alias: Option<Alias>): nat {
    if alias.None? then 0 else Bytes(alias.value.generation) + Bytes(alias.value.group)
  }

  function WorkBytes(w: Work): nat {
    Bytes(w.callId) + Bytes(w.toolName) + Bytes(w.toolArguments) + Bytes(w.ledger)
  }

  function CoordBytes(c: Coords): nat {
    Bytes(c.conversation) + Bytes(c.session) + Bytes(c.account)
  }

  /** persistedFieldBytes */
  function FieldBytes(c: Coords, w: Work, alias: Option<Alias>): nat {
    CoordBytes(c) + WorkBytes(w) + AliasBytes(alias)
  }

  /** A ledger snapshot is the text of a JSON array, which is at least its two brackets. */
  predicate SnapshotText(ledger: string) {
    |ledger| >= 2 && Bytes(ledger) <= MAX_SNAPSHOT_BYTES
  }

  /** validatePersistedFields */
  predicate FieldsOk(c: Coords, w: Work, alias: Option<Alias>) {
    && Bytes(c.conversation) <= MAX_UPSTREAM_ID_BYTES && Bytes(c.session) <= MAX_UPSTREAM_ID_BYTES
    && Bytes(c.account) <= MAX_ACCOUNT_ID_BYTES
    && Bytes(w.callId) <= MAX_TOOL_ID_BYTES && Bytes(w.toolName) <= MAX_TOOL_NAME_BYTES
    && Bytes(w.toolArguments) <= MAX_ARGUMENT_BYTES && SnapshotText(w.ledger)
    && (alias.Some? ==> Bytes(alias.value.generation) <= MAX_ALIAS_BYTES && Bytes(alias.value.group) <= MAX_ALIAS_BYTES)
  }

  /** What anchors and tail may take together. */
  function PortableBudget(c: Coords, w: Work, alias: Option<Alias>): int {
    Min(MAX_PORTABLE_BYTES, MAX_STATE_BYTES - RESERVE_BYTES - FieldBytes(c, w, alias))
  }

  /** boundPortableForPersistedFields: the tail to store, None where it throws. */
  function BoundTail(c: Coords, w: Work, alias: Option<Alias>, anchors: string, tail: string): Option<string> {
    var budget := PortableBudget(c, w, alias);
    if !FieldsOk(c, w, alias) || budget < Bytes(anchors) then None
    else Some(BoundedSuffix(tail, budget - Bytes(anchors)))
  }

  // ---- turns ----

  function StateExpiry(r: Row): int {
    if r.alias.Some? && r.alias.value.expiresAt > 0 then r.alias.value.expiresAt else r.hold.updatedAt + SESSION_TTL_MS
  }

  const BLANK := Row(Coords("", "", "", false, false), Hold("", 0, "", 0), Work("", "", "", NO_CALLS), "[]", "", None)

  function Acquired(s: Session, now: int, lease: string, conversation: string, session: string): Session {
    if s.row.Some? && StateExpiry(s.row.value) <= now then s.(row := None)
    else if s.row.Some? && s.row.value.hold.leaseUntil > now then s
    else
      var r := if s.row.Some? then s.row.value else BLANK;
      var tail := BoundTail(r.coords, r.work, r.alias, r.anchors, r.tail);
      if tail.None? then s
      else
        var c := r.coords;
        var coords := Coords(
          if c.committed then c.conversation else conversation,
          if c.committed then c.session else session,
          if c.committed || c.locked then c.account else "", c.locked, c.committed);
        Session(Some(r.(coords := coords, hold := Hold(lease, now + CHAT_LEASE_MS, "", now), tail := tail.value)),
                s.drawn + {lease, conversation, session}, lease)
  }

  predicate Holds(s: Session, lease: string) {
    s.row.Some? && s.row.value.hold.leaseId == lease
  }

  function Rewritten(s: Session, coords: Coords, anchors: string, tail: string, now: int): Session
    requires s.row.Some?
  {
    var r := s.row.value;
    s.(row := Some(r.(coords := coords, anchors := anchors, tail := tail, hold := r.hold.(updatedAt := now))))
  }

  function Bound(s: Session, lease: string, account: string, now: int): Session {
    if account == "" || !Holds(s, lease) then s
    else
      var r := s.row.value;
      var coords := r.coords.(account := account);
      var tail := BoundTail(coords, r.work, r.alias, r.anchors, r.tail);
      if (r.coords.account != "" && r.coords.account != account) || tail.None? then s
      else Rewritten(s, coords, r.anchors, tail.value, now)
  }

  function Switched(s: Session, e: Event): Session
    requires e.Switch?
  {
    if e.next == "" || !Holds(s, e.lease) then s
    else
      var r := s.row.value;
      var coords := Coords(e.conversation, e.session, e.next, false, false);
      var tail := BoundTail(coords, r.work, r.alias, r.anchors, r.tail);
      if r.coords.account != e.expected || r.coords.committed || r.coords.locked || tail.None? then s
      else Rewritten(s, coords, r.anchors, tail.value, e.now).(drawn := s.drawn + {e.conversation, e.session})
  }

  function Rebound(s: Session, e: Event): Session
    requires e.Rebind?
  {
    if e.expected == "" || e.next == "" || e.expected == e.next || !Holds(s, e.lease) then s
    else
      var r := s.row.value;
      var coords := Coords(e.conversation, e.session, e.next, false, false);
      var tail := BoundTail(coords, r.work, r.alias, r.anchors, r.tail);
      if r.coords.account != e.expected || !r.coords.committed || !r.coords.locked || tail.None? then s
      else
        var t := Rewritten(s, coords, r.anchors, tail.value, e.now);
        var q := t.row.value;
        t.(row := Some(q.(hold := q.hold.(completedId := ""))), drawn := s.drawn + {e.conversation, e.session})
  }

  function Merged(s: Session, lease: string, merged: string, now: int): Session {
    if !Holds(s, lease) then s
    else
      var r := s.row.value;
      var tail := BoundTail(r.coords, r.work, r.alias, merged, r.tail);
      if tail.None? then s else Rewritten(s, r.coords, merged, tail.value, now)
  }

  function Locked(s: Session, lease: string, account: string, now: int): Session {
    if !Holds(s, lease) || s.row.value.coords.account != account then s
    else Rewritten(s, s.row.value.coords.(locked := true), s.row.value.anchors, s.row.value.tail, now)
  }

  /** The checks of commitCompleted; on success the tail to store. */
  function CommitTail(s: Session, e: Event): Option<string>
    requires e.Commit?
  {
    if !Holds(s, e.lease) || e.account == "" || s.row.value.coords.account != e.account then None
    else
      var r := s.row.value;
      BoundTail(Coords(e.conversation, e.session, e.account, true, true), Work("", "", "", r.work.ledger), r.alias,
                if e.newAnchors.Some? then e.newAnchors.value else r.anchors,
                if e.finalTail.Some? then e.finalTail.value else r.tail)
  }

  function Committed(s: Session, e: Event): Session
    requires e.Commit?
  {
    var tail := CommitTail(s, e);
    if tail.None? then s
    else
      var r := s.row.value;
      s.(row := Some(Row(Coords(e.conversation, e.session, e.account, true, true), Hold("", 0, e.lease, e.now),
                         Work("", "", "", r.work.ledger), if e.newAnchors.Some? then e.newAnchors.value else r.anchors, tail.value, r.alias)))
  }

  predicate ReplaceMatches(s: Session, e: Event)
    requires e.Replace?
  {
    && Holds(s, "") && s.row.value.hold.completedId == e.completed && s.row.value.coords.account == e.account
    && s.row.value.coords.conversation == e.conversation && s.row.value.coords.session == e.session && s.row.value.coords.committed
  }

  function Replaced(s: Session, e: Event): Session
    requires e.Replace?
  {
    if !ReplaceMatches(s, e) then s
    else
      var r := s.row.value;
      var tail := BoundTail(r.coords, r.work, r.alias, r.anchors, e.newTail);
      if tail.None? then s else Rewritten(s, r.coords, r.anchors, tail.value, e.now)
  }

  function Released(s: Session, lease: string, now: int): Session {
    if !Holds(s, lease) then s
    else
      var r := s.row.value;
      s.(row := Some(r.(hold := r.hold.(leaseId := "", leaseUntil := 0, updatedAt := now))))
  }

  predicate AbandonMatches(s: Session, lease: string) {
    s.row.Some? && (s.row.value.hold.leaseId == lease || (s.row.value.hold.leaseId == "" && s.row.value.hold.completedId == lease))
  }

  function Abandoned(s: Session, lease: string, detach: bool, now: int): Session {
    if !AbandonMatches(s, lease) then s
    else
      var r := s.row.value;
      var c := r.coords;
      s.(row := Some(r.(
        coords := c.(committed := false, account := if detach then "" else c.account, locked := !detach && c.locked),
        hold := Hold("", 0, "", now),
        work := Work("", "", "", NO_CALLS),
        tail := if r.hold.leaseId == lease then r.tail else "")))
  }

  function Seeded(s: Session, e: Event): Session
    requires e.Seed?
  {
    var coords := Coords(e.conversation, e.session, e.account, true, true);
    var tail := BoundTail(coords, e.work, Some(e.alias), e.anchors, e.newTail);
    if e.account == "" || tail.None? then s
    else if s.row.Some? then (if StateExpiry(s.row.value) <= e.now then s.(row := None) else s)
    else Session(Some(Row(coords, Hold("", 0, "", e.now), e.work, e.anchors, tail.value, Some(e.alias))), s.drawn, s.latest)
  }

  function Evicted(s: Session, generation: string, now: int): Session {
    if s.row.None? || s.row.value.alias.None? || s.row.value.alias.value.generation != generation || s.row.value.hold.leaseUntil > now then s
    else s.(row := None)
  }

  function ExpiredIdle(s: Session, now: int): Session {
    if s.row.Some? && s.row.value.hold.leaseUntil <= now && StateExpiry(s.row.value) <= now then s.(row := None) else s
  }

  /** Random ids are new UUID texts; anchors handed in fit what their own bounds allow. */
  predicate Draw(s: Session, id: string) {
    id != "" && id !in s.drawn && Bytes(id) == UUID_BYTES
  }

  predicate Possible(s: Session, e: Event) {
    match e
    case Acquire(_, lease, conversation, session) =>
      Draw(s, lease) && Draw(s, conversation) && Draw(s, session) && lease != conversation && lease != session
    case Switch(_, _, _, conversation, session, _) => Draw(s, conversation) && Draw(s, session)
    case Rebind(_, _, _, conversation, session, _) => Draw(s, conversation) && Draw(s, session)
    case _ => true
  }

  function Next(s: Session, e: Event): Session {
    match e
    case Acquire(now, lease, conversation, session) => Acquired(s, now, lease, conversation, session)
    case Bind(lease, account, now) => Bound(s, lease, account, now)
    case Switch(_, _, _, _, _, _) => Switched(s, e)
    case Rebind(_, _, _, _, _, _) => Rebound(s, e)
    case MergeAnchors(lease, merged, now) => Merged(s, lease, merged, now)
    case MarkLocked(lease, account, now) => Locked(s, lease, account, now)
    case Commit(_, _, _, _, _, _, _) => Committed(s, e)
    case Replace(_, _, _, _, _, _) => Replaced(s, e)
    case ReleaseLease(lease, now) => Released(s, lease, now)
    case Abandon(lease, detach, now) => Abandoned(s, lease, detach, now)
    case Seed(_, _, _, _, _, _, _, _) => Seeded(s, e)
    case Evict(generation, now) => Evicted(s, generation, now)
    case ExpireIdle(now) => ExpiredIdle(s, now)
  }

  ghost predicate IsRun(trace: seq<Session>, events: seq<Event>) {
    && |trace| == |events| + 1
    && forall i :: 0 <= i < |events| ==> Possible(trace[i], events[i]) && trace[i + 1] == Next(trace[i], events[i])
  }

  // ---- fencing ----

  /** An active or completed lease in the row is the one handed out last. */
  predicate LeaseIsLatest(s: Session) {
    && (s.latest != "" ==> s.latest in s.drawn)
    && (s.row.Some? ==>
          && (s.row.value.hold.leaseId == "" || s.row.value.hold.leaseId == s.latest)
          && (s.row.value.hold.completedId == "" || s.row.value.hold.completedId == s.latest)
          && (s.row.value.hold.leaseId != "" ==> s.row.value.hold.completedId == ""))
  }

  lemma TurnKeepsLatest(s: Session, e: Event)
    requires LeaseIsLatest(s) && Possible(s, e)
    ensures LeaseIsLatest(Next(s, e)) && s.drawn <= Next(s, e).drawn
    ensures Next(s, e).latest == s.latest || (e.Acquire? && Next(s, e).latest == e.lease)
  {
    hide BoundTail, StateExpiry;
  }

  lemma {:induction false} LatestAlways(trace: seq<Session>, events: seq<Event>, n: nat)
    requires IsRun(trace, events) && trace[0] == NEW_SESSION && n < |trace|
    ensures LeaseIsLatest(trace[n])
  {
    hide Next, LeaseIsLatest, Possible;
    if n == 0 {
      NewIsLatest();
    } else {
      LatestAlways(trace, events, n - 1);
      assert trace[n - 1 + 1] == Next(trace[n - 1], events[n - 1]);
      TurnKeepsLatest(trace[n - 1], events[n - 1]);
    }
  }

  lemma NewIsLatest()
    ensures LeaseIsLatest(NEW_SESSION)
  {}

  /** The lease id that an event speaks for. */
  function Speaker(e: Event): Option<string> {
    match e
    case Bind(lease, _, _) => Some(lease)
    case Switch(lease, _, _, _, _, _) => Some(lease)
    case Rebind(lease, _, _, _, _, _) => Some(lease)
    case MergeAnchors(lease, _, _) => Some(lease)
    case MarkLocked(lease, _, _) => Some(lease)
    case Commit(lease, _, _, _, _, _, _) => Some(lease)
    case Replace(completed, _, _, _, _, _) => Some(completed)
    case ReleaseLease(lease, _) => Some(lease)
    case Abandon(lease, _, _) => Some(lease)
    case _ => None
  }

  /** Nothing a superseded lease asks for changes anything. */
  lemma SupersededLeaseIsInert(s: Session, e: Event)
    requires LeaseIsLatest(s) && Speaker(e).Some? && Speaker(e).value != "" && Speaker(e).value != s.latest
    ensures Next(s, e) == s
  {
    hide BoundTail, StateExpiry;
  }

  predicate Commits(s: Session, e: Event) {
    e.Commit? && CommitTail(s, e).Some?
  }

  /** Only the latest lease commits, while it still holds the row. */
  lemma CommitIsByLatest(s: Session, e: Event)
    requires LeaseIsLatest(s) && Commits(s, e) && e.lease != ""
    ensures e.lease == s.latest && Holds(s, e.lease) && !Holds(Next(s, e), e.lease)
    ensures Next(s, e).row.value.hold.completedId == e.lease
  {
    hide BoundTail;
  }

  /** The lease was handed out and no longer holds the row. */
  predicate Spent(s: Session, lease: string) {
    lease in s.drawn && !Holds(s, lease)
  }

  lemma TurnKeepsSpent(s: Session, e: Event, lease: string)
    requires Possible(s, e) && Spent(s, lease) && lease != ""
    ensures Spent(Next(s, e), lease)
  {
    hide BoundTail, StateExpiry;
  }

  lemma {:induction false} SpentStays(trace: seq<Session>, events: seq<Event>, i: nat, j: nat, lease: string)
    requires IsRun(trace, events) && i <= j < |trace| && Spent(trace[i], lease) && lease != ""
    ensures Spent(trace[j], lease)
    decreases j
  {
    hide Next, Spent, Possible;
    if i < j {
      SpentStays(trace, events, i, j - 1, lease);
      assert trace[j - 1 + 1] == Next(trace[j - 1], events[j - 1]);
      TurnKeepsSpent(trace[j - 1], events[j - 1], lease);
    }
  }

  /** Each lease commits at most once. */
  lemma CommitsAtMostOnce(trace: seq<Session>, events: seq<Event>, i: nat, j: nat)
    requires IsRun(trace, events) && trace[0] == NEW_SESSION && i < j < |events|
    requires Commits(trace[i], events[i]) && Commits(trace[j], events[j]) && events[i].lease != ""
    ensures events[i].lease != events[j].lease
  {
    hide BoundTail, Possible, Next;
    var lease := events[i].lease;
    LatestAlways(trace, events, i);
    CommitIsByLatest(trace[i], events[i]);
    assert trace[i + 1] == Next(trace[i], events[i]);
    CommitSpends(trace[i], events[i]);
    SpentStays(trace, events, i + 1, j, lease);
  }

  lemma CommitSpends(s: Session, e: Event)
    requires LeaseIsLatest(s) && Commits(s, e) && e.lease != ""
    ensures Spent(Next(s, e), e.lease)
  {
    hide BoundTail;
  }

  // ---- what committed means ----

  predicate CommittedIsBound(s: Session) {
    s.row.Some? && s.row.value.coords.committed ==> s.row.value.coords.account != "" && s.row.value.coords.locked
  }

  lemma TurnKeepsBound(s: Session, e: Event)
    requires CommittedIsBound(s)
    ensures CommittedIsBound(Next(s, e))
  {
    hide BoundTail, StateExpiry;
  }

  /** A committed session always has a locked account. */
  lemma {:induction false} CommittedAlwaysBound(trace: seq<Session>, events: seq<Event>, n: nat)
    requires IsRun(trace, events) && trace[0] == NEW_SESSION && n < |trace|
    ensures CommittedIsBound(trace[n])
  {
    hide Next;
    if n > 0 {
      CommittedAlwaysBound(trace, events, n - 1);
      assert trace[n - 1 + 1] == Next(trace[n - 1], events[n - 1]);
      TurnKeepsBound(trace[n - 1], events[n - 1]);
    }
  }

  /** The turn writes upstream coordinates as committed. */
  predicate Writes(s: Session, e: Event, conversation: string, session: string) {
    && (Commits(s, e) || (e.Seed? && s.row.None? && Next(s, e).row.Some?))
    && e.conversation == conversation && e.session == session
  }

  /** The turn abandons, rebinds, evicts or expires what was committed. */
  predicate Forgets(s: Session, e: Event) {
    match e
    case Abandon(lease, _, _) => AbandonMatches(s, lease)
    case Rebind(_, _, _, _, _, _) => Next(s, e) != s
    case _ => s.row.Some? && Next(s, e).row.None?
  }

  predicate CommittedAt(s: Session, conversation: string, session: string) {
    s.row.Some? && s.row.value.coords.committed && s.row.value.coords.conversation == conversation && s.row.value.coords.session == session
  }

  /** Coordinates become committed only where they are written, and stay until forgotten or overwritten. */
  lemma CommittedByWrite(s: Session, e: Event, conversation: string, session: string)
    requires CommittedAt(Next(s, e), conversation, session)
    ensures Writes(s, e, conversation, session) || (CommittedAt(s, conversation, session) && !Forgets(s, e))
  {
    hide BoundTail, StateExpiry;
  }

  /** Stored coordinates come from a commit or seed, with nothing abandoned, rebound or expired since. */
  lemma {:induction false} CoordinatesHaveSource(trace: seq<Session>, events: seq<Event>, n: nat, conversation: string, session: string)
    returns (k: nat)
    requires IsRun(trace, events) && trace[0] == NEW_SESSION && n < |trace| && CommittedAt(trace[n], conversation, session)
    ensures k < n && Writes(trace[k], events[k], conversation, session)
    ensures forall m :: k < m < n ==> !Forgets(trace[m], events[m])
  {
    hide Next, Writes, Forgets;
    assert trace[n - 1 + 1] == Next(trace[n - 1], events[n - 1]);
    CommittedByWrite(trace[n - 1], events[n - 1], conversation, session);
    if Writes(trace[n - 1], events[n - 1], conversation, session) {
      k := n - 1;
    } else {
      k := CoordinatesHaveSource(trace, events, n - 1, conversation, session);
    }
  }

  // ---- where the portable tail comes from ----

  predicate SuffixOf(t: string, full: string) {
    |t| <= |full| && t == full[|full| - |t|..]
  }

  /** The turn hands in a tail: a final commit, a guarded replacement, or a seed. */
  predicate Supplies(s: Session, e: Event, full: string) {
    || (Commits(s, e) && e.finalTail == Some(full))
    || (e.Replace? && ReplaceMatches(s, e) && e.newTail == full)
    || (e.Seed? && s.row.None? && Next(s, e).row.Some? && e.newTail == full)
  }

  lemma BoundTailIsSuffix(c: Coords, w: Work, alias: Option<Alias>, anchors: string, tail: string)
    ensures var r := BoundTail(c, w, alias, anchors, tail); r.Some? ==> SuffixOf(r.value, tail)
  {
    hide BoundedSuffix, FieldsOk, PortableBudget;
  }

  lemma TailByTurn(s: Session, e: Event) returns (full: string)
    requires Next(s, e).row.Some? && Next(s, e).row.value.tail != ""
    ensures SuffixOf(Next(s, e).row.value.tail, full)
    ensures Supplies(s, e, full) || (s.row.Some? && full == s.row.value.tail)
  {
    hide BoundTail, StateExpiry;
    full := if Commits(s, e) && e.finalTail.Some? then e.finalTail.value
            else if e.Replace? && ReplaceMatches(s, e) && Next(s, e) != s then e.newTail
            else if e.Seed? && s.row.None? then e.newTail
            else if s.row.Some? then s.row.value.tail else "";
    forall c, w, alias, anchors, tail ensures var r := BoundTail(c, w, alias, anchors, tail); r.Some? ==> SuffixOf(r.value, tail) {
      BoundTailIsSuffix(c, w, alias, anchors, tail);
    }
  }

  lemma SuffixTransitive(a: string, b: string, c: string)
    requires SuffixOf(a, b) && SuffixOf(b, c)
    ensures SuffixOf(a, c)
  {}

  /** A stored tail is a suffix of one handed in by a final commit, guarded replacement or seed. */
  lemma {:induction false} TailHasSource(trace: seq<Session>, events: seq<Event>, n: nat) returns (k: nat, full: string)
    requires IsRun(trace, events) && trace[0] == NEW_SESSION && n < |trace|
    requires trace[n].row.Some? && trace[n].row.value.tail != ""
    ensures k < n && Supplies(trace[k], events[k], full) && SuffixOf(trace[n].row.value.tail, full)
  {
    hide Next, Supplies, SuffixOf;
    assert trace[n - 1 + 1] == Next(trace[n - 1], events[n - 1]);
    var from := TailByTurn(trace[n - 1], events[n - 1]);
    if Supplies(trace[n - 1], events[n - 1], from) {
      k, full := n - 1, from;
    } else {
      NonEmptySource(trace[n].row.value.tail, from);
      k, full := TailHasSource(trace, events, n - 1);
      SuffixTransitive(trace[n].row.value.tail, from, full);
    }
  }

  lemma NonEmptySource(t: string, full: string)
    requires SuffixOf(t, full) && t != ""
    ensures full != ""
  {}

  // ---- sizes ----

  const UNRESERVED := MAX_STATE_BYTES - RESERVE_BYTES

  function PortableBytes(r: Row): nat {
    Bytes(r.anchors) + Bytes(r.tail)
  }

  /** Everything the row stores, its ids and its kind marker included. */
  function RowBytes(r: Row): nat {
    FieldBytes(r.coords, r.work, r.alias) + PortableBytes(r) + Bytes(r.hold.leaseId) + Bytes(r.hold.completedId) + |"stable"|
  }

  predicate Sized(r: Row) {
    && PortableBytes(r) <= MAX_PORTABLE_BYTES
    && FieldBytes(r.coords, r.work, r.alias) + PortableBytes(r) <= UNRESERVED + 2 * UUID_BYTES
    && Bytes(r.hold.leaseId) <= UUID_BYTES && Bytes(r.hold.completedId) <= UUID_BYTES
    && Bytes(r.work.ledger) >= Bytes(NO_CALLS)
  }

  lemma {:induction false} BytesAtLeast(s: string)
    ensures Bytes(s) >= |s|
  {
    if s != [] { BytesAtLeast(s[1..]); }
  }

  lemma NoCallsBytes()
    ensures Bytes(NO_CALLS) == 2 && Bytes("") == 0
  {
    assert NO_CALLS[1..] == "]" && "]"[1..] == "";
  }

  lemma BoundTailFits(c: Coords, w: Work, alias: Option<Alias>, anchors: string, tail: string)
    requires BoundTail(c, w, alias, anchors, tail).Some?
    ensures var t := BoundTail(c, w, alias, anchors, tail).value;
            && Bytes(anchors) + Bytes(t) <= MAX_PORTABLE_BYTES
            && FieldBytes(c, w, alias) + Bytes(anchors) + Bytes(t) <= UNRESERVED
            && Bytes(w.ledger) >= 2
  {
    hide BoundedSuffix, Bytes, FieldBytes;
    BytesAtLeast(w.ledger);
  }

  ghost predicate Fits(s: Session) {
    s.row.Some? ==> Sized(s.row.value)
  }

  lemma AcquireKeepsSize(s: Session, e: Event)
    requires Fits(s) && e.Acquire? && Possible(s, e)
    ensures Fits(Next(s, e))
  {
    hide BoundTail, StateExpiry, Bytes, WorkBytes, AliasBytes;
    NoCallsBytes();
    var r := if s.row.Some? then s.row.value else BLANK;
    if BoundTail(r.coords, r.work, r.alias, r.anchors, r.tail).Some? {
      BoundTailFits(r.coords, r.work, r.alias, r.anchors, r.tail);
    }
  }

  lemma RewriteKeepsSize(s: Session, e: Event)
    requires Fits(s) && (e.Bind? || e.Switch? || e.Rebind? || e.MergeAnchors? || e.MarkLocked? || e.Replace?)
    ensures Fits(Next(s, e))
  {
    hide BoundTail, Bytes, WorkBytes, AliasBytes;
    NoCallsBytes();
    if s.row.Some? {
      var r := s.row.value;
      forall c, anchors, tail | BoundTail(c, r.work, r.alias, anchors, tail).Some?
        ensures var t := BoundTail(c, r.work, r.alias, anchors, tail).value;
                Bytes(anchors) + Bytes(t) <= MAX_PORTABLE_BYTES && FieldBytes(c, r.work, r.alias) + Bytes(anchors) + Bytes(t) <= UNRESERVED
      {
        BoundTailFits(c, r.work, r.alias, anchors, tail);
      }
    }
  }

  lemma CommitKeepsSize(s: Session, e: Event)
    requires Fits(s) && (e.Commit? || e.Seed?)
    ensures Fits(Next(s, e))
  {
    hide BoundTail, StateExpiry, Bytes, WorkBytes, AliasBytes;
    NoCallsBytes();
    if e.Commit? && CommitTail(s, e).Some? {
      var r := s.row.value;
      BoundTailFits(Coords(e.conversation, e.session, e.account, true, true), Work("", "", "", r.work.ledger), r.alias,
                    if e.newAnchors.Some? then e.newAnchors.value else r.anchors,
                    if e.finalTail.Some? then e.finalTail.value else r.tail);
    }
    if e.Seed? && s.row.None? && Next(s, e).row.Some? {
      BoundTailFits(Coords(e.conversation, e.session, e.account, true, true), e.work, Some(e.alias), e.anchors, e.newTail);
    }
  }

  lemma ShrinkKeepsSize(s: Session, e: Event)
    requires Fits(s) && (e.ReleaseLease? || e.Abandon? || e.Evict? || e.ExpireIdle?)
    ensures Fits(Next(s, e))
  {
    hide StateExpiry, Bytes, AliasBytes;
    NoCallsBytes();
  }

  lemma {:induction false} RowAlwaysFits(trace: seq<Session>, events: seq<Event>, n: nat)
    requires IsRun(trace, events) && trace[0] == NEW_SESSION && n < |trace|
    ensures Fits(trace[n])
  {
    hide Next, Sized, Possible;
    if n > 0 {
      RowAlwaysFits(trace, events, n - 1);
      var s, e := trace[n - 1], events[n - 1];
      assert trace[n - 1 + 1] == Next(s, e) && Possible(s, e);
      if e.Acquire? {
        AcquireKeepsSize(s, e);
      } else if e.Commit? || e.Seed? {
        CommitKeepsSize(s, e);
      } else if e.Bind? || e.Switch? || e.Rebind? || e.MergeAnchors? || e.MarkLocked? || e.Replace? {
        RewriteKeepsSize(s, e);
      } else {
        ShrinkKeepsSize(s, e);
      }
    }
  }

  /** Anchors and tail stay within 64 KiB, and the whole row, fresh ids included, within 192 KiB. */
  lemma SessionStaysBounded(trace: seq<Session>, events: seq<Event>, n: nat)
    requires IsRun(trace, events) && trace[0] == NEW_SESSION && n < |trace| && trace[n].row.Some?
    ensures PortableBytes(trace[n].row.value) <= 65_536 && RowBytes(trace[n].row.value) <= 196_608
  {
    hide Next, Bytes, FieldBytes, PortableBytes;
    RowAlwaysFits(trace, events, n);
  }

  /** Within the field limits the aggregate cap never rejects anchors of up to 17,152 bytes. */
  lemma FieldLimitsLeaveRoom(c: Coords, w: Work, alias: Option<Alias>, anchors: string, tail: string)
    requires Bytes(anchors) <= 17_152
    ensures BoundTail(c, w, alias, anchors, tail).Some? <==> FieldsOk(c, w, alias)
  {
    hide Bytes, BoundedSuffix;
  }

  // ---- the object ----

  class ChatSession {
    var row: Option<Row>
    ghost var drawn: set<string>
    ghost var latest: string

    ghost function State(): Session
      reads this
    {
      Session(row, drawn, latest)
    }

    constructor ()
      ensures State() == NEW_SESSION
    {
      row, drawn, latest := None, {}, "";
    }

    /** boundPortableForPersistedFields, with the byte loop that cuts the tail. */
    method BoundPortable(c: Coords, w: Work, alias: Option<Alias>, anchors: string, tail: string) returns (r: Option<string>)
      ensures r == BoundTail(c, w, alias, anchors, tail)
    {
      hide Bytes, BoundedSuffix, FieldBytes, FieldsOk;
      var budget := PortableBudget(c, w, alias);
      if !FieldsOk(c, w, alias) || budget < Bytes(anchors) {
        return None;
      }
      var kept := BoundedUtf8Suffix(tail, budget - Bytes(anchors));
      return Some(kept);
    }

    /** acquire: a lease, unless the row is expired (deleted first), busy or over its limits. */
    method Acquire(now: int, lease: string, conversation: string, session: string) returns (ok: bool)
      requires Possible(State(), Event.Acquire(now, lease, conversation, session))
      modifies this
      ensures State() == Acquired(old(State()), now, lease, conversation, session)
      ensures if ok then Holds(State(), lease) && latest == lease else latest == old(latest)
      ensures ok && row.value.coords.committed ==>
                CommittedAt(old(State()), row.value.coords.conversation, row.value.coords.session)
      ensures ok && !row.value.coords.committed ==> row.value.coords.conversation == conversation && row.value.coords.session == session
    {
      hide BoundTail, StateExpiry, Bytes;
      ok := false;
      if row.Some? && StateExpiry(row.value) <= now {
        row := None;
        return;
      }
      if row.Some? && row.value.hold.leaseUntil > now {
        return;
      }
      var r := if row.Some? then row.value else BLANK;
      var tail := BoundPortable(r.coords, r.work, r.alias, r.anchors, r.tail);
      if tail.None? {
        return;
      }
      var c := r.coords;
      if !c.committed {
        c := c.(conversation := conversation, session := session, account := if c.locked then c.account else "");
      }
      row := Some(r.(coords := c, hold := Hold(lease, now + CHAT_LEASE_MS, "", now), tail := tail.value));
      drawn, latest := drawn + {lease, conversation, session}, lease;
      ok := true;
    }

    /** The conditional UPDATE of coordinates, anchors and tail. */
    method Rewrite(coords: Coords, anchors: string, tail: string, now: int)
      requires row.Some?
      modifies this`row
      ensures State() == Rewritten(old(State()), coords, anchors, tail, now)
    {
      var r := row.value;
      row := Some(r.(coords := coords, anchors := anchors, tail := tail, hold := r.hold.(updatedAt := now)));
    }

    method BindAccount(lease: string, account: string, now: int) returns (ok: bool)
      modifies this`row
      ensures State() == Bound(old(State()), lease, account, now)
      ensures ok ==> Holds(State(), lease) && row.value.coords.account == account != ""
      ensures !ok ==> State() == old(State())
    {
      hide BoundTail;
      if account == "" || row.None? || row.value.hold.leaseId != lease {
        return false;
      }
      var r := row.value;
      if r.coords.account != "" && r.coords.account != account {
        return false;
      }
      var tail := BoundPortable(r.coords.(account := account), r.work, r.alias, r.anchors, r.tail);
      if tail.None? {
        return false;
      }
      Rewrite(r.coords.(account := account), r.anchors, tail.value, now);
      return true;
    }

    method SwitchUncommittedAccount(lease: string, expected: string, next: string, conversation: string, session: string, now: int) returns (ok: bool)
      modifies this
      ensures State() == Switched(old(State()), Switch(lease, expected, next, conversation, session, now))
      ensures ok ==> old(row).Some? && !old(row).value.coords.committed && !old(row).value.coords.locked
                     && old(row).value.coords.account == expected && Holds(State(), lease) && row.value.coords.account == next
      ensures !ok ==> State() == old(State())
    {
      hide BoundTail;
      if next == "" || row.None? || row.value.hold.leaseId != lease {
        return false;
      }
      var r := row.value;
      if r.coords.account != expected || r.coords.committed || r.coords.locked {
        return false;
      }
      var coords := Coords(conversation, session, next, false, false);
      var tail := BoundPortable(coords, r.work, r.alias, r.anchors, r.tail);
      if tail.None? {
        return false;
      }
      Rewrite(coords, r.anchors, tail.value, now);
      drawn := drawn + {conversation, session};
      return true;
    }

    method RebindCommittedAccount(lease: string, expected: string, next: string, conversation: string, session: string, now: int) returns (ok: bool)
      modifies this
      ensures State() == Rebound(old(State()), Event.Rebind(lease, expected, next, conversation, session, now))
      ensures ok ==> old(row).Some? && old(row).value.coords.committed && old(row).value.coords.account == expected
                     && Holds(State(), lease) && !row.value.coords.committed && row.value.coords.account == next
      ensures !ok ==> State() == old(State())
    {
      hide BoundTail;
      if expected == "" || next == "" || expected == next || row.None? || row.value.hold.leaseId != lease {
        return false;
      }
      var r := row.value;
      if r.coords.account != expected || !r.coords.committed || !r.coords.locked {
        return false;
      }
      var coords := Coords(conversation, session, next, false, false);
      var tail := BoundPortable(coords, r.work, r.alias, r.anchors, r.tail);
      if tail.None? {
        return false;
      }
      Rewrite(coords, r.anchors, tail.value, now);
      row := Some(row.value.(hold := row.value.hold.(completedId := "")));
      drawn := drawn + {conversation, session};
      return true;
    }

    method MergeTaskAnchors(lease: string, merged: string, now: int) returns (ok: bool)
      modifies this`row
      ensures State() == Merged(old(State()), lease, merged, now)
      ensures ok ==> Holds(State(), lease) && row.value.anchors == merged
      ensures !ok ==> State() == old(State())
    {
      hide BoundTail;
      if row.None? || row.value.hold.leaseId != lease {
        return false;
      }
      var r := row.value;
      var tail := BoundPortable(r.coords, r.work, r.alias, merged, r.tail);
      if tail.None? {
        return false;
      }
      Rewrite(r.coords, merged, tail.value, now);
      return true;
    }

    method MarkAccountLocked(lease: string, account: string, now: int) returns (ok: bool)
      modifies this`row
      ensures State() == Locked(old(State()), lease, account, now)
      ensures ok <==> Holds(old(State()), lease) && old(row).value.coords.account == account
    {
      ok := row.Some? && row.value.hold.leaseId == lease && row.value.coords.account == account;
      if ok {
        Rewrite(row.value.coords.(locked := true), row.value.anchors, row.value.tail, now);
      }
    }

    /** complete without a final tail keeps the stored one; completeFinal replaces it. */
    method CommitCompleted(lease: string, account: string, conversation: string, session: string,
                           newAnchors: Option<string>, finalTail: Option<string>, now: int) returns (ok: bool)
      modifies this`row
      ensures State() == Committed(old(State()), Event.Commit(lease, account, conversation, session, newAnchors, finalTail, now))
      ensures ok <==> Commits(old(State()), Event.Commit(lease, account, conversation, session, newAnchors, finalTail, now))
      ensures ok ==> CommittedAt(State(), conversation, session) && row.value.hold.leaseId == "" && row.value.hold.completedId == lease
    {
      hide BoundTail;
      if row.None? || row.value.hold.leaseId != lease || account == "" || row.value.coords.account != account {
        return false;
      }
      var r := row.value;
      var coords := Coords(conversation, session, account, true, true);
      var work := Work("", "", "", r.work.ledger);
      var anchors := if newAnchors.Some? then newAnchors.value else r.anchors;
      var tail := BoundPortable(coords, work, r.alias, anchors, if finalTail.Some? then finalTail.value else r.tail);
      if tail.None? {
        return false;
      }
      row := Some(Row(coords, Hold("", 0, lease, now), work, anchors, tail.value, r.alias));
      return true;
    }

    method ReplaceCompletedTail(completed: string, account: string, conversation: string, session: string, newTail: string, now: int) returns (ok: bool)
      modifies this`row
      ensures State() == Replaced(old(State()), Event.Replace(completed, account, conversation, session, newTail, now))
      ensures ok ==> ReplaceMatches(old(State()), Event.Replace(completed, account, conversation, session, newTail, now))
      ensures !ok ==> State() == old(State())
    {
      hide BoundTail;
      if row.None? || row.value.hold.leaseId != "" || row.value.hold.completedId != completed || !row.value.coords.committed
         || row.value.coords.account != account || row.value.coords.conversation != conversation || row.value.coords.session != session {
        return false;
      }
      var r := row.value;
      var tail := BoundPortable(r.coords, r.work, r.alias, r.anchors, newTail);
      if tail.None? {
        return false;
      }
      Rewrite(r.coords, r.anchors, tail.value, now);
      return true;
    }

    method Release(lease: string, now: int)
      modifies this`row
      ensures State() == Released(old(State()), lease, now)
    {
      if row.Some? && row.value.hold.leaseId == lease {
        var r := row.value;
        row := Some(r.(hold := r.hold.(leaseId := "", leaseUntil := 0, updatedAt := now)));
      }
    }

    method AbandonTurn(lease: string, detach: bool, now: int)
      modifies this`row
      ensures State() == Abandoned(old(State()), lease, detach, now)
    {
      if row.None? || !(row.value.hold.leaseId == lease || (row.value.hold.leaseId == "" && row.value.hold.completedId == lease)) {
        return;
      }
      var r := row.value;
      var active := r.hold.leaseId == lease;
      var c := r.coords.(committed := false);
      if detach {
        c := c.(account := "", locked := false);
      }
      row := Some(Row(c, Hold("", 0, "", now), Work("", "", "", NO_CALLS), r.anchors, if active then r.tail else "", r.alias));
    }

    /** seed on a session without a live row; an existing one is immutable. */
    method Seed(conversation: string, session: string, account: string, work: Work, anchors: string, newTail: string, alias: Alias, now: int)
      returns (ok: bool)
      modifies this`row
      ensures State() == Seeded(old(State()), Event.Seed(conversation, session, account, work, anchors, newTail, alias, now))
      ensures ok ==> old(row).None? && CommittedAt(State(), conversation, session) && row.value.coords.account == account != ""
    {
      hide BoundTail, StateExpiry;
      if account == "" {
        return false;
      }
      var coords := Coords(conversation, session, account, true, true);
      var tail := BoundPortable(coords, work, Some(alias), anchors, newTail);
      if tail.None? {
        return false;
      }
      if row.Some? {
        if StateExpiry(row.value) <= now {
          row := None;
        }
        return false;
      }
      row := Some(Row(coords, Hold("", 0, "", now), work, anchors, tail.value, Some(alias)));
      return true;
    }

    method EvictResponseAlias(generation: string, now: int) returns (evicted: bool)
      modifies this`row
      ensures State() == Evicted(old(State()), generation, now)
      ensures evicted ==> old(row).Some? && row.None? && old(row).value.hold.leaseUntil <= now
    {
      evicted := row.Some? && row.value.alias.Some? && row.value.alias.value.generation == generation && row.value.hold.leaseUntil <= now;
      if evicted {
        row := None;
      }
    }

    method ExpireIfIdle(now: int)
      modifies this`row
      ensures State() == ExpiredIdle(old(State()), now)
    {
      hide StateExpiry;
      if row.Some? && row.value.hold.leaseUntil <= now && StateExpiry(row.value) <= now {
        row := None;
      }
    }
  }
}

/**
 * The tenant object as a state machine over its SQL tables and meta keys.
 *
 * One event is one synchronous turn of the object, so a method of the source that
 * awaits is split into the turns between its awaits.  Values the source draws or
 * leaves open (random keys, ciphertexts, which row an unordered LIMIT 1 returns, the
 * first row of an ordered query) are fields of the event, constrained by `Allowed`.
 */
module TenantModel {
  import opened Common

  type Id = string
  type Key = string
  type Cipher = string

  datatype Account = Account(email: string, cipher: Cipher, revision: nat, kvKey: Key, sequence: int)

  datatype FailureKind = RateLimit | Transient | Auth | Permanent

  datatype Health = Health(isolated: bool, cooldownUntil: int, kind: Option<FailureKind>, count: nat, lastFailureAt: int)

  /** A row of credential_mirror_queue. */
  datatype MirrorRow = MirrorRow(kvKey: Key, revision: nat)

  /** A KV call in progress; `landed` says that it has taken effect. */
  datatype Flight =
    | PutFlight(kvKey: Key, revision: nat, cipher: Cipher, landed: bool)
    | DeleteFlight(kvKey: Key, landed: bool)

  /** A flush waiting its turn in the per-account promise chain. */
  datatype Job = FlushMirror | FlushDeletion

  /** The credential tables and their KV mirror; `owner` records every KV key ever drawn and for whom. */
  datatype Vault = Vault(
    accounts: map<Id, Account>,
    queue: map<Id, MirrorRow>,
    deletions: map<Id, Key>,
    owner: map<Key, Id>,
    kv: map<Key, Cipher>,
    jobs: map<Id, seq<Job>>,
    flights: map<Id, Flight>)

  /** The health table, the persisted active route and the sequence counter. */
  datatype Routing = Routing(health: map<Id, Health>, activeId: Id, epoch: nat, counter: int)

  datatype Tenant = Tenant(v: Vault, r: Routing)

  const NO_CREDENTIALS := Vault(map[], map[], map[], map[], map[], map[], map[])
  const EMPTY := Tenant(NO_CREDENTIALS, Routing(map[], "", 0, 0))

  datatype Imported = Imported(existing: Option<Id>, oid: Id, email: string, cipher: Cipher, newKey: Key) {
    function Target(): Id {
      if existing.Some? then existing.value else oid
    }
  }

  datatype Event =
    | Upsert(oid: Id, email: string, cipher: Cipher, newKey: Key, limit: nat, existing: Option<Id>, now: int, pick: Id)
    | Import(batch: seq<Imported>, activeSequence: int, limit: nat)
    | Delete(id: Id, now: int, pick: Id)
    | Enqueue(id: Id, job: Job)
    | Begin(id: Id)
    | Land(id: Id)
    | Settle(id: Id, ok: bool)
    | ReportFailure(id: Id, kind: FailureKind, expected: Option<nat>, now: int, recovered: Id, pick: Id)
    | ReportSuccess(id: Id, allowInactive: bool, now: int, pick: Id)
    | Recover(now: int, pick: Id)

  // ---- availability and cyclic order ----

  predicate Available(s: Tenant, id: Id, now: int) {
    id in s.v.accounts && (id in s.r.health ==> !s.r.health[id].isolated && s.r.health[id].cooldownUntil <= now)
  }

  /** x comes no later than y when rows are listed from just after `after`, wrapping round. */
  predicate Precedes(after: Option<int>, x: int, y: int) {
    var wx := after.Some? && x <= after.value;
    var wy := after.Some? && y <= after.value;
    (!wx && wy) || (wx == wy && x <= y)
  }

  ghost predicate Candidate(s: Tenant, except: Id, now: int, c: Id) {
    Available(s, c, now) && c != except
  }

  /** r is the first available account in that listing other than `except`, or "" when there is none. */
  ghost predicate IsNext(s: Tenant, after: Option<int>, except: Id, now: int, r: Id) {
    if exists c :: Candidate(s, except, now, c) then
      && Candidate(s, except, now, r)
      && forall c :: Candidate(s, except, now, c) ==> Precedes(after, s.v.accounts[r].sequence, s.v.accounts[c].sequence)
    else r == ""
  }

  // ---- routing ----

  ghost predicate RecoverAllowed(s: Tenant, now: int, pick: Id) {
    Available(s, s.r.activeId, now) || IsNext(s, None, "", now, pick)
  }

  function Routed(s: Tenant, activeId: Id, epoch: nat): Tenant {
    s.(r := s.r.(activeId := activeId, epoch := epoch))
  }

  /** ensureActiveAccountRoute. */
  function Recovered(s: Tenant, now: int, pick: Id): Tenant {
    if Available(s, s.r.activeId, now) then s
    else Routed(s, pick, if pick != "" && pick == s.r.activeId then s.r.epoch else s.r.epoch + 1)
  }

  const DAY_MS := 24 * 60 * 60_000

  function FailureHealth(previous: Option<Health>, kind: FailureKind, now: int): Health {
    var consecutive := if previous.Some? && previous.value.kind == Some(kind) && now - previous.value.lastFailureAt < DAY_MS
                       then previous.value.count + 1 else 1;
    var isolated := kind.Auth? || kind.Permanent?;
    var base := if kind.RateLimit? then 5 * 60_000 else 15_000;
    var maximum := if kind.RateLimit? then 60 * 60_000 else 5 * 60_000;
    Health(isolated, if isolated then 0 else now + Min(maximum, base * Pow2(if consecutive - 1 < 6 then consecutive - 1 else 6)),
           Some(kind), consecutive, now)
  }

  /** The compare-and-swap guard of reportAccountFailure, evaluated on the recovered route. */
  predicate Accepts(r: Routing, id: Id, expected: Option<nat>) {
    r.activeId == id && (expected.Some? ==> expected.value == r.epoch)
  }

  function WithHealth(s: Tenant, id: Id, health: Health): Tenant {
    s.(r := s.r.(health := s.r.health[id := health]))
  }

  function WithFailure(s: Tenant, id: Id, kind: FailureKind, now: int): Tenant {
    WithHealth(s, id, FailureHealth(if id in s.r.health then Some(s.r.health[id]) else None, kind, now))
  }

  function Failed(s: Tenant, id: Id, kind: FailureKind, expected: Option<nat>, now: int, recovered: Id, pick: Id): Tenant {
    if id == "" || id !in s.v.accounts then s
    else
      var t := Recovered(s, now, recovered);
      if !Accepts(t.r, id, expected) then t else Routed(WithFailure(t, id, kind, now), pick, t.r.epoch + 1)
  }

  ghost predicate FailedAllowed(s: Tenant, id: Id, kind: FailureKind, expected: Option<nat>, now: int, recovered: Id, pick: Id) {
    id != "" && id in s.v.accounts ==>
      && RecoverAllowed(s, now, recovered)
      && var t := Recovered(s, now, recovered);
         Accepts(t.r, id, expected) ==>
           IsNext(WithFailure(t, id, kind, now), Some(t.v.accounts[id].sequence), id, now, pick)
  }

  const HEALTHY := Health(false, 0, None, 0, 0)

  function Succeeded(s: Tenant, id: Id, allowInactive: bool, now: int, pick: Id): Tenant {
    if allowInactive then WithHealth(s, id, HEALTHY)
    else
      var t := Recovered(s, now, pick);
      if t.r.activeId != id then t else WithHealth(t, id, HEALTHY)
  }

  // ---- credentials ----

  /** The account row and its pending mirror job commit together; a pending deletion is dropped. */
  function Install(v: Vault, id: Id, account: Account): Vault {
    v.(accounts := v.accounts[id := account],
       queue := v.queue[id := MirrorRow(account.kvKey, account.revision)],
       deletions := v.deletions - {id},
       owner := v.owner[account.kvKey := id])
  }

  function ChosenKey(v: Vault, existing: Option<Id>, id: Id, newKey: Key): Key {
    if existing.Some? && existing.value in v.accounts then v.accounts[existing.value].kvKey
    else if id in v.deletions then v.deletions[id]
    else newKey
  }

  function ChosenRevision(v: Vault, existing: Option<Id>): nat {
    if existing.Some? && existing.value in v.accounts then v.accounts[existing.value].revision + 1 else 1
  }

  /** WHERE id=oid OR email=email ORDER BY (id=oid) first LIMIT 1. */
  predicate Resolves(v: Vault, oid: Id, email: string, existing: Option<Id>) {
    if oid in v.accounts then existing == Some(oid)
    else if existing.Some? then existing.value in v.accounts && v.accounts[existing.value].email == email
    else forall id <- v.accounts :: v.accounts[id].email != email
  }

  /** SQLite lower(): ASCII letters only. */
  function Lower(text: string): string {
    seq(|text|, i requires 0 <= i < |text| => LowerChar(text[i]))
  }

  predicate ResolvesFolded(v: Vault, oid: Id, email: string, existing: Option<Id>) {
    if oid in v.accounts then existing == Some(oid)
    else if existing.Some? then existing.value in v.accounts && Lower(v.accounts[existing.value].email) == Lower(email)
    else forall id <- v.accounts :: Lower(v.accounts[id].email) != Lower(email)
  }

  function UpsertId(oid: Id, email: string, existing: Option<Id>): Id {
    if existing.Some? then existing.value else if oid != "" then oid else email
  }

  /** The upsert's inputs pass the identity and account-limit checks. */
  predicate UpsertAccepted(v: Vault, oid: Id, email: string, limit: nat, existing: Option<Id>) {
    (oid != "" || email != "") && (existing.None? ==> |v.accounts| < Max(1, limit))
  }

  /** The row an upsert writes: ON CONFLICT(id) keeps the stored sequence number. */
  function UpsertRow(s: Tenant, email: string, cipher: Cipher, newKey: Key, existing: Option<Id>, id: Id): Account {
    Account(email, cipher, ChosenRevision(s.v, existing), ChosenKey(s.v, existing, id, newKey),
            if id in s.v.accounts then s.v.accounts[id].sequence else s.r.counter + 1)
  }

  function Upserted(s: Tenant, oid: Id, email: string, cipher: Cipher, newKey: Key, existing: Option<Id>): Tenant {
    var id := UpsertId(oid, email, existing);
    Tenant(Install(s.v, id, UpsertRow(s, email, cipher, newKey, existing, id)),
           s.r.(counter := if existing.Some? then s.r.counter else s.r.counter + 1))
  }

  function Shifted(v: Vault, n: nat): Vault {
    v.(accounts := map id | id in v.accounts :: v.accounts[id].(sequence := v.accounts[id].sequence + n))
  }

  function RowAccount(v: Vault, row: Imported, k: nat): Account {
    Account(row.email, row.cipher, ChosenRevision(v, row.existing), ChosenKey(v, row.existing, row.Target(), row.newKey), k)
  }

  /** The import loop after k of its rows. */
  function ImportRows(v: Vault, batch: seq<Imported>, k: nat): Vault
    requires k <= |batch|
  {
    if k == 0 then Shifted(v, |batch|)
    else
      var u := ImportRows(v, batch, k - 1);
      Install(u, batch[k - 1].Target(), RowAccount(u, batch[k - 1], k))
  }

  function Targets(batch: seq<Imported>): set<Id> {
    set row <- batch :: row.Target()
  }

  predicate DistinctTargets(batch: seq<Imported>) {
    forall i, j :: 0 <= i < j < |batch| ==> batch[i].Target() != batch[j].Target()
  }

  function NewAccounts(batch: seq<Imported>): nat {
    if batch == [] then 0 else NewAccounts(batch[..|batch| - 1]) + if batch[|batch| - 1].existing.None? then 1 else 0
  }

  predicate ImportAccepted(v: Vault, batch: seq<Imported>, limit: nat) {
    DistinctTargets(batch) && |v.accounts| + NewAccounts(batch) <= Max(1, limit)
  }

  /** COALESCE(MAX(sequence_no), 0). */
  ghost function MaxSequence(accounts: map<Id, Account>): (m: int)
    ensures accounts == map[] ==> m == 0
    ensures accounts != map[] ==> exists id :: id in accounts && accounts[id].sequence == m
    ensures forall id :: id in accounts ==> accounts[id].sequence <= m
    decreases |accounts|
  {
    if accounts == map[] then 0
    else
      var id :| id in accounts;
      var rest := accounts - {id};
      assert accounts.Keys == rest.Keys + {id};
      if rest == map[] then accounts[id].sequence else Max(accounts[id].sequence, MaxSequence(rest))
  }

  function ImportActive(batch: seq<Imported>, activeSequence: int): Id {
    if 1 <= activeSequence <= |batch| then batch[activeSequence - 1].Target() else ""
  }

  ghost function ImportedAll(s: Tenant, batch: seq<Imported>, activeSequence: int): Tenant {
    var u := ImportRows(s.v, batch, |batch|);
    var active := ImportActive(batch, activeSequence);
    Tenant(u, Routing(s.r.health - Targets(batch), active, if s.r.activeId == active then s.r.epoch else s.r.epoch + 1,
                      MaxSequence(u.accounts)))
  }

  function Removed(v: Vault, id: Id): Vault
    requires id in v.accounts
  {
    v.(accounts := v.accounts - {id}, queue := v.queue - {id}, deletions := v.deletions[id := v.accounts[id].kvKey])
  }

  function WithoutRow(s: Tenant, id: Id): Tenant
    requires id in s.v.accounts
  {
    Tenant(Removed(s.v, id), s.r.(health := s.r.health - {id}))
  }

  function Deleted(s: Tenant, id: Id, pick: Id): Tenant {
    if id !in s.v.accounts then s
    else if s.r.activeId == id then Routed(WithoutRow(s, id), pick, s.r.epoch + 1)
    else WithoutRow(s, id)
  }

  ghost predicate DeletedAllowed(s: Tenant, id: Id, now: int, pick: Id) {
    id in s.v.accounts && s.r.activeId == id ==> IsNext(WithoutRow(s, id), Some(s.v.accounts[id].sequence), "", now, pick)
  }

  // ---- the serialised flushes ----

  function Chain(v: Vault, id: Id): seq<Job> {
    if id in v.jobs then v.jobs[id] else []
  }

  function Enqueued(v: Vault, id: Id, job: Job): Vault {
    v.(jobs := v.jobs[id := Chain(v, id) + [job]])
  }

  function PoppedJobs(v: Vault, id: Id): map<Id, seq<Job>> {
    v.jobs[id := if Chain(v, id) == [] then [] else Chain(v, id)[1..]]
  }

  /** The join of flushCredentialMirror finds a row. */
  predicate HasMirrorRow(v: Vault, id: Id) {
    id in v.queue && id in v.accounts && v.accounts[id].revision == v.queue[id].revision
  }

  /** The KV call the flush issues, when the tables still ask for one. */
  function CallFor(v: Vault, id: Id, job: Job): Option<Flight> {
    match job
    case FlushMirror =>
      if HasMirrorRow(v, id) then Some(PutFlight(v.queue[id].kvKey, v.queue[id].revision, v.accounts[id].cipher, false)) else None
    case FlushDeletion =>
      if id in v.deletions && id !in v.accounts then Some(DeleteFlight(v.deletions[id], false)) else None
  }

  function Begun(v: Vault, id: Id): Vault
    requires Chain(v, id) != []
  {
    var job := Chain(v, id)[0];
    var call := CallFor(v, id, job);
    v.(queue := if job.FlushMirror? && call.None? then v.queue - {id} else v.queue,
       deletions := if job.FlushDeletion? && id in v.accounts then v.deletions - {id} else v.deletions,
       flights := if call.Some? then v.flights[id := call.value] else v.flights,
       jobs := if call.Some? then v.jobs else PoppedJobs(v, id))
  }

  function Landed(v: Vault, id: Id): Vault
    requires id in v.flights
  {
    var f := v.flights[id];
    v.(kv := if f.PutFlight? then v.kv[f.kvKey := f.cipher] else v.kv - {f.kvKey}, flights := v.flights[id := f.(landed := true)])
  }

  /** The confirming DELETE matches the queue row: same account, same revision. */
  predicate Confirms(v: Vault, id: Id) {
    id in v.flights && v.flights[id].PutFlight? && id in v.queue && v.queue[id].revision == v.flights[id].revision
  }

  /** A failed call defers the row and otherwise changes nothing these tables hold. */
  function Settled(v: Vault, id: Id, ok: bool): Vault
    requires id in v.flights
  {
    v.(queue := if ok && Confirms(v, id) then v.queue - {id} else v.queue,
       deletions := if ok && v.flights[id].DeleteFlight? then v.deletions - {id} else v.deletions,
       flights := v.flights - {id},
       jobs := PoppedJobs(v, id))
  }

  // ---- one step, and runs ----

  ghost predicate BatchAllowed(v: Vault, batch: seq<Imported>) {
    && (forall i :: 0 <= i < |batch| ==>
         batch[i].oid != "" && ResolvesFolded(v, batch[i].oid, batch[i].email, batch[i].existing) && batch[i].newKey !in v.owner)
    && (forall i, j :: 0 <= i < j < |batch| ==> batch[i].newKey != batch[j].newKey)
  }

  ghost predicate UpsertAllowed(s: Tenant, oid: Id, email: string, cipher: Cipher, newKey: Key, limit: nat, existing: Option<Id>, now: int, pick: Id) {
    Resolves(s.v, oid, email, existing) && newKey !in s.v.owner &&
    (UpsertAccepted(s.v, oid, email, limit, existing) ==>
      RecoverAllowed(Upserted(s, oid, email, cipher, newKey, existing), now, pick))
  }

  ghost predicate Allowed(s: Tenant, e: Event) {
    match e
    case Upsert(oid, email, cipher, newKey, limit, existing, now, pick) =>
      UpsertAllowed(s, oid, email, cipher, newKey, limit, existing, now, pick)
    case Import(batch, _, _) => BatchAllowed(s.v, batch)
    case Delete(id, now, pick) => DeletedAllowed(s, id, now, pick)
    case Enqueue(_, _) => true
    case Begin(id) => id !in s.v.flights && Chain(s.v, id) != []
    case Land(id) => id in s.v.flights
    case Settle(id, ok) => id in s.v.flights && (ok ==> s.v.flights[id].landed)
    case ReportFailure(id, kind, expected, now, recovered, pick) => FailedAllowed(s, id, kind, expected, now, recovered, pick)
    case ReportSuccess(_, allowInactive, now, pick) => allowInactive || RecoverAllowed(s, now, pick)
    case Recover(now, pick) => RecoverAllowed(s, now, pick)
  }

  ghost function Next(s: Tenant, e: Event): Tenant
    requires Allowed(s, e)
  {
    match e
    case Upsert(oid, email, cipher, newKey, limit, existing, now, pick) =>
      if UpsertAccepted(s.v, oid, email, limit, existing)
      then Recovered(Upserted(s, oid, email, cipher, newKey, existing), now, pick) else s
    case Import(batch, activeSequence, limit) =>
      if ImportAccepted(s.v, batch, limit) then ImportedAll(s, batch, activeSequence) else s
    case Delete(id, _, pick) => Deleted(s, id, pick)
    case Enqueue(id, job) => s.(v := Enqueued(s.v, id, job))
    case Begin(id) => s.(v := Begun(s.v, id))
    case Land(id) => s.(v := Landed(s.v, id))
    case Settle(id, ok) => s.(v := Settled(s.v, id, ok))
    case ReportFailure(id, kind, expected, now, recovered, pick) => Failed(s, id, kind, expected, now, recovered, pick)
    case ReportSuccess(id, allowInactive, now, pick) => Succeeded(s, id, allowInactive, now, pick)
    case Recover(now, pick) => Recovered(s, now, pick)
  }

  /** trace[0] is the start; trace[i+1] follows trace[i] by events[i]. */
  ghost predicate IsRun(trace: seq<Tenant>, events: seq<Event>) {
    && |trace| == |events| + 1
    && forall i {:trigger events[i]} :: 0 <= i < |events| ==> Allowed(trace[i], events[i]) && trace[i + 1] == Next(trace[i], events[i])
  }
}

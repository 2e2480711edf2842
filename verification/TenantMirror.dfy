/**
 * The KV mirror of the credential table.  Safety holds up to two exactly described
 * steps: a confirmation that drops a queue row written by another incarnation of the
 * account, and an upsert that overwrites a live row under a new key.
 */
module TenantMirror {
  import opened Common
  import opened TenantModel

  /** The KV key the tables currently hold for the account, live or awaiting deletion. */
  function CurrentKey(v: Vault, id: Id): Option<Key> {
    if id in v.accounts then Some(v.accounts[id].kvKey)
    else if id in v.deletions then Some(v.deletions[id])
    else None
  }

  /** Property (b): a queue row belongs to a live account and carries its key and revision. */
  ghost predicate QueueCurrent(v: Vault) {
    forall id :: id in v.queue ==> id in v.accounts && v.queue[id] == MirrorRow(v.accounts[id].kvKey, v.accounts[id].revision)
  }

  ghost predicate KeysOwned(v: Vault) {
    && (forall id :: id in v.accounts ==> v.accounts[id].kvKey in v.owner && v.owner[v.accounts[id].kvKey] == id)
    && (forall id :: id in v.deletions ==> v.deletions[id] in v.owner && v.owner[v.deletions[id]] == id)
    && (forall id :: id in v.flights ==> v.flights[id].kvKey in v.owner && v.owner[v.flights[id].kvKey] == id)
    && (forall k :: k in v.kv ==> k in v.owner)
  }

  /** What a KV call in progress knows about the tables it was started from. */
  ghost predicate FlightOk(v: Vault, id: Id)
    requires id in v.flights
  {
    var f := v.flights[id];
    && (f.landed && f.PutFlight? ==> f.kvKey in v.kv && v.kv[f.kvKey] == f.cipher)
    && (f.landed && f.DeleteFlight? ==> f.kvKey !in v.kv)
    && (id in v.accounts ==> id in v.queue)
    && (CurrentKey(v, id).Some? && CurrentKey(v, id).value != f.kvKey ==> CurrentKey(v, id).value !in v.kv)
  }

  ghost predicate FlightsOk(v: Vault) {
    forall id :: id in v.flights ==> FlightOk(v, id)
  }

  ghost predicate Inv(v: Vault) {
    QueueCurrent(v) && v.accounts.Keys !! v.deletions.Keys && KeysOwned(v) && FlightsOk(v)
  }

  /** Property (a). */
  ghost predicate Converged(v: Vault) {
    forall id :: id in v.accounts && id !in v.queue ==>
      v.accounts[id].kvKey in v.kv && v.kv[v.accounts[id].kvKey] == v.accounts[id].cipher
  }

  /** Property (c): every KV entry belongs to a live account or to a recorded deletion. */
  ghost predicate NoOrphans(v: Vault) {
    forall k :: k in v.kv ==> k in v.owner && CurrentKey(v, v.owner[k]) == Some(k)
  }

  /** Shrinking or keeping the mirror while every mirrored account keeps its key creates no orphan. */
  lemma OrphansTransfer(v: Vault, u: Vault)
    requires NoOrphans(v)
    requires forall k :: k in u.kv ==>
      k in v.kv && k in v.owner && k in u.owner && u.owner[k] == v.owner[k] && CurrentKey(u, v.owner[k]) == CurrentKey(v, v.owner[k])
    ensures NoOrphans(u)
  {
    forall k | k in u.kv
      ensures k in u.owner && CurrentKey(u, u.owner[k]) == Some(k)
    {
      assert CurrentKey(v, v.owner[k]) == Some(k);
    }
  }

  /** The flush chain and the calls in progress are invisible to claims (a) and (c). */
  lemma SameTables(v: Vault, u: Vault)
    requires u.accounts == v.accounts && u.queue == v.queue && u.deletions == v.deletions && u.kv == v.kv && u.owner == v.owner
    requires KeysOwned(v)
    ensures forall i :: CurrentKey(u, i) == CurrentKey(v, i)
    ensures Converged(v) <==> Converged(u)
    ensures NoOrphans(v) ==> NoOrphans(u)
  {
    assert forall i :: CurrentKey(u, i) == CurrentKey(v, i);
    if NoOrphans(v) { OrphansTransfer(v, u); }
  }

  // ---- installing a credential ----

  predicate KeyUsable(v: Vault, id: Id, key: Key) {
    key !in v.owner || CurrentKey(v, id) == Some(key)
  }

  lemma InstallKeepsFlights(v: Vault, id: Id, a: Account)
    requires Inv(v) && KeyUsable(v, id, a.kvKey)
    ensures FlightsOk(Install(v, id, a))
  {
    hide QueueCurrent;
    var u := Install(v, id, a);
    forall i | i in u.flights
      ensures FlightOk(u, i)
    {
      assert FlightOk(v, i);
    }
  }

  lemma InstallKeepsRows(v: Vault, id: Id, a: Account)
    requires QueueCurrent(v) && v.accounts.Keys !! v.deletions.Keys
    ensures var u := Install(v, id, a);
            QueueCurrent(u) && u.accounts.Keys !! u.deletions.Keys && (Converged(v) ==> Converged(u))
  {}

  lemma InstallKeepsKeys(v: Vault, id: Id, a: Account)
    requires KeysOwned(v) && KeyUsable(v, id, a.kvKey)
    ensures KeysOwned(Install(v, id, a))
  {}

  lemma InstallKeepsInv(v: Vault, id: Id, a: Account)
    requires Inv(v) && KeyUsable(v, id, a.kvKey)
    ensures Inv(Install(v, id, a))
    ensures Converged(v) ==> Converged(Install(v, id, a))
  {
    hide FlightsOk, QueueCurrent, KeysOwned, KeyUsable, Install, Converged;
    InstallKeepsRows(v, id, a);
    InstallKeepsKeys(v, id, a);
    InstallKeepsFlights(v, id, a);
  }

  /** The credential's previous key, when it changes and is mirrored, becomes an orphan. */
  predicate Orphaned(v: Vault, id: Id, key: Key) {
    CurrentKey(v, id).Some? && CurrentKey(v, id).value != key && CurrentKey(v, id).value in v.kv
  }

  lemma InstallOrphans(v: Vault, id: Id, a: Account)
    requires Inv(v) && NoOrphans(v) && KeyUsable(v, id, a.kvKey)
    ensures NoOrphans(Install(v, id, a)) <==> !Orphaned(v, id, a.kvKey)
  {
    var u := Install(v, id, a);
    if Orphaned(v, id, a.kvKey) {
      assert u.owner[CurrentKey(v, id).value] == id;
      assert CurrentKey(u, id) == Some(a.kvKey);
    } else {
      forall k | k in u.kv
        ensures k in u.owner && CurrentKey(u, u.owner[k]) == Some(k)
      {
        assert CurrentKey(v, v.owner[k]) == Some(k);
      }
    }
  }

  // ---- import ----

  /** The rows already written by an import, seen from the rows still to come. */
  ghost predicate ImportAhead(v: Vault, u: Vault, batch: seq<Imported>, k: nat)
    requires k <= |batch|
  {
    && (forall j :: k <= j < |batch| ==> var id := batch[j].Target();
          && (id in u.accounts <==> id in v.accounts)
          && CurrentKey(u, id) == CurrentKey(v, id)
          && batch[j].newKey !in u.owner)
    && u.kv == v.kv && u.flights == v.flights && u.jobs == v.jobs
  }

  ghost predicate ImportFacts(v: Vault, u: Vault, batch: seq<Imported>, k: nat)
    requires k <= |batch|
  {
    Inv(u) && ImportAhead(v, u, batch, k) && (NoOrphans(v) ==> NoOrphans(u)) && (Converged(v) ==> Converged(u))
  }

  lemma ShiftKeepsInv(v: Vault, n: nat)
    requires Inv(v)
    ensures Inv(Shifted(v, n)) && forall i :: CurrentKey(Shifted(v, n), i) == CurrentKey(v, i)
  {
    var u := Shifted(v, n);
    assert forall i :: CurrentKey(u, i) == CurrentKey(v, i);
    forall i | i in u.flights ensures FlightOk(u, i) { assert FlightOk(v, i); }
  }

  lemma ImportStart(v: Vault, batch: seq<Imported>)
    requires Inv(v) && BatchAllowed(v, batch)
    ensures ImportFacts(v, Shifted(v, |batch|), batch, 0)
  {
    hide Inv, CurrentKey, NoOrphans;
    var u := Shifted(v, |batch|);
    ShiftKeepsInv(v, |batch|);
    if NoOrphans(v) { ShiftOrphansNothing(v, |batch|); }
  }

  lemma ShiftOrphansNothing(v: Vault, n: nat)
    requires NoOrphans(v) && forall i :: CurrentKey(Shifted(v, n), i) == CurrentKey(v, i)
    ensures NoOrphans(Shifted(v, n))
  {
    OrphansTransfer(v, Shifted(v, n));
  }

  /** One row keeps what the later rows rely on. */
  lemma ImportAheadStep(v: Vault, u: Vault, batch: seq<Imported>, k: nat)
    requires BatchAllowed(v, batch) && DistinctTargets(batch)
    requires 0 < k <= |batch| && ImportAhead(v, u, batch, k - 1) && KeysOwned(u)
    ensures ImportAhead(v, Install(u, batch[k - 1].Target(), RowAccount(u, batch[k - 1], k)), batch, k)
  {
    var row := batch[k - 1];
    var a := RowAccount(u, row, k);
    var w := Install(u, row.Target(), a);
    forall j | k <= j < |batch|
      ensures var i := batch[j].Target();
              (i in w.accounts <==> i in v.accounts) && CurrentKey(w, i) == CurrentKey(v, i) && batch[j].newKey !in w.owner
    {
      assert batch[j].Target() != row.Target() && batch[j].newKey != row.newKey;
      assert a.kvKey != row.newKey ==> a.kvKey in u.owner;
    }
  }

  lemma ImportRowKeeps(v: Vault, u: Vault, batch: seq<Imported>, k: nat)
    requires Inv(u) && BatchAllowed(v, batch) && 0 < k <= |batch| && ImportAhead(v, u, batch, k - 1)
    ensures var w := Install(u, batch[k - 1].Target(), RowAccount(u, batch[k - 1], k));
            Inv(w) && (NoOrphans(u) ==> NoOrphans(w)) && (Converged(u) ==> Converged(w))
  {
    var row := batch[k - 1];
    var id := row.Target();
    var a := RowAccount(u, row, k);
    assert ResolvesFolded(v, row.oid, row.email, row.existing);
    assert id in u.accounts <==> id in v.accounts;
    assert KeyUsable(u, id, a.kvKey) && !Orphaned(u, id, a.kvKey);
    InstallKeepsInv(u, id, a);
    if NoOrphans(u) { InstallOrphans(u, id, a); }
  }

  lemma ImportRowStep(v: Vault, batch: seq<Imported>, k: nat)
    requires BatchAllowed(v, batch) && DistinctTargets(batch) && 0 < k <= |batch|
    requires ImportFacts(v, ImportRows(v, batch, k - 1), batch, k - 1)
    ensures ImportFacts(v, ImportRows(v, batch, k), batch, k)
  {
    hide NoOrphans, Converged, QueueCurrent, FlightsOk, KeysOwned, ImportAhead, BatchAllowed, DistinctTargets, Install;
    var u := ImportRows(v, batch, k - 1);
    ImportAheadStep(v, u, batch, k);
    ImportRowKeeps(v, u, batch, k);
  }

  lemma {:induction false} ImportKeeps(v: Vault, batch: seq<Imported>, k: nat)
    requires Inv(v) && BatchAllowed(v, batch) && DistinctTargets(batch) && k <= |batch|
    ensures ImportFacts(v, ImportRows(v, batch, k), batch, k)
  {
    hide Inv, ImportFacts, BatchAllowed, DistinctTargets;
    if k == 0 {
      ImportStart(v, batch);
    } else {
      ImportKeeps(v, batch, k - 1);
      ImportRowStep(v, batch, k);
    }
  }

  // ---- the two exceptional steps ----

  /** The confirmation drops a row that the flush did not read: equal revision, other credential. */
  predicate StaleConfirm(v: Vault, e: Event) {
    e.Settle? && e.ok && Confirms(v, e.id) && e.id in v.accounts
    && (v.queue[e.id].kvKey != v.flights[e.id].kvKey || v.accounts[e.id].cipher != v.flights[e.id].cipher)
  }

  /** No row matches, yet a row with the identity chosen for the new account is live. */
  predicate Clobbers(v: Vault, e: Event) {
    e.Upsert? && UpsertAccepted(v, e.oid, e.email, e.limit, e.existing) && e.existing.None?
    && UpsertId(e.oid, e.email, e.existing) in v.accounts
  }

  /** The step after which a KV entry has no row: a mirrored key is replaced, or a put lands on a key no longer held. */
  predicate LosesKey(v: Vault, e: Event) {
    || (Clobbers(v, e) && v.accounts[UpsertId(e.oid, e.email, e.existing)].kvKey in v.kv)
    || (e.Land? && e.id in v.flights && v.flights[e.id].PutFlight? && CurrentKey(v, e.id) != Some(v.flights[e.id].kvKey))
  }

  /** What one step does to the three claims. */
  ghost predicate StepFacts(v: Vault, e: Event, u: Vault) {
    && Inv(u)
    && (Converged(v) ==> (Converged(u) <==> !StaleConfirm(v, e)))
    && (NoOrphans(v) ==> (NoOrphans(u) <==> !LosesKey(v, e)))
  }

  lemma UpsertExact(s: Tenant, e: Event)
    requires Inv(s.v) && e.Upsert? && Resolves(s.v, e.oid, e.email, e.existing) && e.newKey !in s.v.owner
    requires UpsertAccepted(s.v, e.oid, e.email, e.limit, e.existing)
    ensures StepFacts(s.v, e, Upserted(s, e.oid, e.email, e.cipher, e.newKey, e.existing).v)
  {
    hide Converged, NoOrphans, FlightsOk, QueueCurrent, Install;
    var id := UpsertId(e.oid, e.email, e.existing);
    var a := UpsertRow(s, e.email, e.cipher, e.newKey, e.existing, id);
    assert KeyUsable(s.v, id, a.kvKey);
    InstallKeepsInv(s.v, id, a);
    assert Orphaned(s.v, id, a.kvKey) <==> LosesKey(s.v, e);
    if NoOrphans(s.v) { InstallOrphans(s.v, id, a); }
  }

  lemma DeleteKeepsInv(v: Vault, id: Id)
    requires Inv(v) && id in v.accounts
    ensures Inv(Removed(v, id)) && forall i :: CurrentKey(Removed(v, id), i) == CurrentKey(v, i)
  {
    var u := Removed(v, id);
    assert forall i :: CurrentKey(u, i) == CurrentKey(v, i);
    forall i | i in u.flights ensures FlightOk(u, i) { assert FlightOk(v, i); }
  }

  lemma DeleteExact(v: Vault, e: Event)
    requires Inv(v) && e.Delete? && e.id in v.accounts
    ensures StepFacts(v, e, Removed(v, e.id))
  {
    hide NoOrphans, CurrentKey, Inv;
    DeleteKeepsInv(v, e.id);
    if NoOrphans(v) { RemovalOrphansNothing(v, e.id); }
  }

  lemma RemovalOrphansNothing(v: Vault, id: Id)
    requires id in v.accounts && NoOrphans(v) && forall i :: CurrentKey(Removed(v, id), i) == CurrentKey(v, i)
    ensures NoOrphans(Removed(v, id))
  {
    OrphansTransfer(v, Removed(v, id));
  }

  lemma BeginTables(v: Vault, id: Id)
    requires QueueCurrent(v) && v.accounts.Keys !! v.deletions.Keys && Chain(v, id) != []
    ensures var u := Begun(v, id);
            u.accounts == v.accounts && u.queue == v.queue && u.deletions == v.deletions && u.kv == v.kv && u.owner == v.owner
  {
    assert id !in v.queue ==> v.queue - {id} == v.queue;
    assert id in v.queue ==> HasMirrorRow(v, id);
  }

  lemma BeginExact(v: Vault, e: Event)
    requires Inv(v) && e.Begin? && e.id !in v.flights && Chain(v, e.id) != []
    ensures StepFacts(v, e, Begun(v, e.id))
  {
    hide Converged, NoOrphans;
    var u := Begun(v, e.id);
    BeginTables(v, e.id);
    SameTables(v, u);
    forall i | i in u.flights ensures FlightOk(u, i) { if i in v.flights { assert FlightOk(v, i); } }
  }

  lemma LandKeepsInv(v: Vault, id: Id)
    requires Inv(v) && id in v.flights
    ensures Inv(Landed(v, id))
  {
    var u := Landed(v, id);
    forall i | i in u.flights
      ensures FlightOk(u, i)
    {
      assert FlightOk(v, i);
      assert CurrentKey(u, i) == CurrentKey(v, i);
      assert i != id ==> v.flights[i].kvKey != v.flights[id].kvKey;
    }
  }

  lemma LandConverged(v: Vault, id: Id)
    requires Inv(v) && id in v.flights && Converged(v)
    ensures Converged(Landed(v, id))
  {
    assert FlightOk(v, id);
  }

  lemma LandOrphans(v: Vault, e: Event)
    requires Inv(v) && e.Land? && e.id in v.flights && NoOrphans(v)
    ensures NoOrphans(Landed(v, e.id)) <==> !LosesKey(v, e)
  {
    var u := Landed(v, e.id);
    var f := v.flights[e.id];
    assert forall i :: CurrentKey(u, i) == CurrentKey(v, i);
    if LosesKey(v, e) {
      assert f.kvKey in u.kv && u.owner[f.kvKey] == e.id;
    } else if f.DeleteFlight? {
      OrphansTransfer(v, u);
    } else {
      forall k | k in u.kv ensures k in u.owner && CurrentKey(u, u.owner[k]) == Some(k) {
        if k in v.kv { assert CurrentKey(v, v.owner[k]) == Some(k); }
      }
    }
  }

  lemma LandExact(v: Vault, e: Event)
    requires Inv(v) && e.Land? && e.id in v.flights
    ensures StepFacts(v, e, Landed(v, e.id))
  {
    hide Converged, NoOrphans, LosesKey;
    LandKeepsInv(v, e.id);
    if Converged(v) { LandConverged(v, e.id); }
    if NoOrphans(v) { LandOrphans(v, e); }
  }

  predicate SettleAllowed(v: Vault, id: Id, ok: bool) {
    id in v.flights && (ok ==> v.flights[id].landed)
  }

  lemma SettleKeepsInv(v: Vault, id: Id, ok: bool)
    requires Inv(v) && SettleAllowed(v, id, ok)
    ensures Inv(Settled(v, id, ok))
  {
    var u := Settled(v, id, ok);
    forall i | i in u.flights ensures FlightOk(u, i) { assert i != id && FlightOk(v, i); }
  }

  lemma SettleConverged(v: Vault, e: Event)
    requires Inv(v) && e.Settle? && SettleAllowed(v, e.id, e.ok) && Converged(v)
    ensures Converged(Settled(v, e.id, e.ok)) <==> !StaleConfirm(v, e)
  {
    var u := Settled(v, e.id, e.ok);
    assert FlightOk(v, e.id);
    if StaleConfirm(v, e) { assert e.id in u.accounts && e.id !in u.queue; }
  }

  lemma SettleOrphans(v: Vault, id: Id, ok: bool)
    requires Inv(v) && SettleAllowed(v, id, ok) && NoOrphans(v)
    ensures NoOrphans(Settled(v, id, ok))
  {
    var u := Settled(v, id, ok);
    assert FlightOk(v, id);
    forall k | k in u.kv ensures CurrentKey(u, v.owner[k]) == CurrentKey(v, v.owner[k]) {
      assert CurrentKey(v, v.owner[k]) == Some(k);
    }
    OrphansTransfer(v, u);
  }

  lemma SettleExact(v: Vault, e: Event)
    requires Inv(v) && e.Settle? && SettleAllowed(v, e.id, e.ok)
    ensures StepFacts(v, e, Settled(v, e.id, e.ok))
  {
    hide Converged, NoOrphans, StaleConfirm;
    SettleKeepsInv(v, e.id, e.ok);
    if Converged(v) { SettleConverged(v, e); }
    if NoOrphans(v) { SettleOrphans(v, e.id, e.ok); }
  }

  lemma EnqueueExact(v: Vault, e: Event)
    requires Inv(v) && e.Enqueue?
    ensures StepFacts(v, e, Enqueued(v, e.id, e.job))
  {
    hide Converged, NoOrphans;
    var u := Enqueued(v, e.id, e.job);
    SameTables(v, u);
    forall i | i in u.flights ensures FlightOk(u, i) { assert FlightOk(v, i); }
  }

  lemma ImportExact(s: Tenant, e: Event)
    requires Inv(s.v) && e.Import? && Allowed(s, e)
    ensures StepFacts(s.v, e, Next(s, e).v)
  {
    hide Inv, Converged, NoOrphans, BatchAllowed, DistinctTargets, ImportAhead;
    if ImportAccepted(s.v, e.batch, e.limit) { ImportKeeps(s.v, e.batch, |e.batch|); }
  }

  /** A step that leaves the credential tables alone. */
  lemma RoutingExact(v: Vault, e: Event)
    requires Inv(v) && !e.Upsert? && !e.Settle? && !e.Land?
    ensures StepFacts(v, e, v)
  {
    hide Inv, Converged, NoOrphans;
  }

  /** One step from any state that satisfies the invariant, both exceptions exact. */
  lemma StepExact(s: Tenant, e: Event)
    requires Inv(s.v) && Allowed(s, e)
    ensures StepFacts(s.v, e, Next(s, e).v)
  {
    hide Inv, Converged, NoOrphans, BatchAllowed, ImportedAll, IsNext;
    match e
    case Upsert(oid, email, cipher, newKey, limit, existing, now, pick) =>
      if UpsertAccepted(s.v, oid, email, limit, existing) { UpsertExact(s, e); }
    case Import(_, _, _) => ImportExact(s, e);
    case Delete(_, _, _) => if e.id in s.v.accounts { DeleteExact(s.v, e); } else { RoutingExact(s.v, e); }
    case Enqueue(_, _) => EnqueueExact(s.v, e);
    case Begin(_) => BeginExact(s.v, e);
    case Land(_) => LandExact(s.v, e);
    case Settle(_, _) => SettleExact(s.v, e);
    case ReportFailure(_, _, _, _, _, _) => RoutingExact(s.v, e);
    case ReportSuccess(_, _, _, _) => RoutingExact(s.v, e);
    case Recover(_, _) => RoutingExact(s.v, e);
  }

  // ---- whole runs from the empty tenant ----

  lemma {:induction false} RunInv(trace: seq<Tenant>, events: seq<Event>, n: nat)
    requires IsRun(trace, events) && trace[0] == EMPTY && n < |trace|
    ensures Inv(trace[n].v)
  {
    if n > 0 {
      RunInv(trace, events, n - 1);
      StepExact(trace[n - 1], events[n - 1]);
    }
  }

  /** Property (b) in every reachable state, with no exception. */
  lemma QueueRowsAreCurrent(trace: seq<Tenant>, events: seq<Event>, n: nat, id: Id)
    requires IsRun(trace, events) && trace[0] == EMPTY && n < |trace| && id in trace[n].v.queue
    ensures id in trace[n].v.accounts
    ensures trace[n].v.queue[id] == MirrorRow(trace[n].v.accounts[id].kvKey, trace[n].v.accounts[id].revision)
  {
    RunInv(trace, events, n);
  }

  ghost predicate ConvergedUpTo(trace: seq<Tenant>, n: nat) {
    forall i :: 0 <= i <= n && i < |trace| ==> Converged(trace[i].v)
  }

  ghost predicate NoOrphansUpTo(trace: seq<Tenant>, n: nat) {
    forall i :: 0 <= i <= n && i < |trace| ==> NoOrphans(trace[i].v)
  }

  ghost predicate NoStaleConfirm(trace: seq<Tenant>, events: seq<Event>, n: nat)
    requires n <= |events| <= |trace|
  {
    forall i :: 0 <= i < n ==> !StaleConfirm(trace[i].v, events[i])
  }

  ghost predicate NoLostKey(trace: seq<Tenant>, events: seq<Event>, n: nat)
    requires n <= |events| <= |trace|
  {
    forall i :: 0 <= i < n ==> !LosesKey(trace[i].v, events[i])
  }

  lemma RunStep(trace: seq<Tenant>, events: seq<Event>, n: nat)
    requires IsRun(trace, events) && trace[0] == EMPTY && n < |events|
    ensures StepFacts(trace[n].v, events[n], trace[n + 1].v)
  {
    RunInv(trace, events, n);
    StepExact(trace[n], events[n]);
  }

  /** Property (a) over whole runs: it holds throughout exactly when no confirmation was stale. */
  lemma {:induction false} MirrorConvergence(trace: seq<Tenant>, events: seq<Event>, n: nat)
    requires IsRun(trace, events) && trace[0] == EMPTY && n < |trace|
    ensures ConvergedUpTo(trace, n) <==> NoStaleConfirm(trace, events, n)
  {
    hide Allowed, Next, Converged, StaleConfirm, NoOrphans, LosesKey, Inv;
    if n > 0 {
      MirrorConvergence(trace, events, n - 1);
      RunStep(trace, events, n - 1);
      assert ConvergedUpTo(trace, n) <==> ConvergedUpTo(trace, n - 1) && Converged(trace[n].v);
      assert NoStaleConfirm(trace, events, n) <==> NoStaleConfirm(trace, events, n - 1) && !StaleConfirm(trace[n - 1].v, events[n - 1]);
      assert ConvergedUpTo(trace, n - 1) ==> Converged(trace[n - 1].v);
    } else {
      EmptyIsGood();
    }
  }

  lemma EmptyIsGood()
    ensures Converged(EMPTY.v) && NoOrphans(EMPTY.v)
  {}

  /** Property (c) over whole runs, step by step; TenantMirrorCauses traces every such step to an upsert. */
  lemma {:induction false} NoOrphanEntries(trace: seq<Tenant>, events: seq<Event>, n: nat)
    requires IsRun(trace, events) && trace[0] == EMPTY && n < |trace|
    ensures NoOrphansUpTo(trace, n) <==> NoLostKey(trace, events, n)
  {
    hide Allowed, Next, Converged, StaleConfirm, NoOrphans, LosesKey, Inv;
    if n > 0 {
      NoOrphanEntries(trace, events, n - 1);
      RunStep(trace, events, n - 1);
      assert NoOrphansUpTo(trace, n) <==> NoOrphansUpTo(trace, n - 1) && NoOrphans(trace[n].v);
      assert NoLostKey(trace, events, n) <==> NoLostKey(trace, events, n - 1) && !LosesKey(trace[n - 1].v, events[n - 1]);
      assert NoOrphansUpTo(trace, n - 1) ==> NoOrphans(trace[n - 1].v);
    } else {
      EmptyIsGood();
    }
  }

  /** An upsert replaces a row it did not find only in a sign-in without object id, whose e-mail is the id of a renamed account. */
  lemma ClobberNeedsMissingObjectId(s: Tenant, e: Event)
    requires Allowed(s, e) && Clobbers(s.v, e)
    ensures e.oid == "" && e.email in s.v.accounts && s.v.accounts[e.email].email != e.email
  {}

  // ---- the run that breaks property (a) ----

  const FIRST := Upsert("oid", "mail", "old", "key", 1, None, 0, "oid")
  const AGAIN := Upsert("oid", "mail", "new", "key2", 1, None, 0, "oid")

  /** The tables after an authorisation into an empty table. */
  function SignedIn(s: Tenant, cipher: Cipher): Tenant {
    Tenant(s.v.(accounts := map["oid" := Account("mail", cipher, 1, "key", s.r.counter + 1)], queue := map["oid" := MirrorRow("key", 1)],
                deletions := map[], owner := map["key" := "oid"]),
           Routing(map[], "oid", s.r.epoch + 1, s.r.counter + 1))
  }

  lemma SignIn(s: Tenant, cipher: Cipher, newKey: Key)
    requires s.v.accounts == map[] && s.v.queue == map[] && s.r.health == map[] && s.r.activeId == ""
    requires (s.v.deletions == map[] && s.v.owner == map[] && newKey == "key")
          || (s.v.deletions == map["oid" := "key"] && s.v.owner == map["key" := "oid"] && newKey != "key")
    ensures var e := Upsert("oid", "mail", cipher, newKey, 1, None, 0, "oid");
            Allowed(s, e) && Next(s, e) == SignedIn(s, cipher)
  {
    hide IsNext, Available, Upserted;
    FirstRow(s, cipher, newKey);
    OnlyAccountIsNext(Upserted(s, "oid", "mail", cipher, newKey, None));
  }

  lemma FirstRow(s: Tenant, cipher: Cipher, newKey: Key)
    requires s.v.accounts == map[] && s.v.queue == map[]
    requires (s.v.deletions == map[] && s.v.owner == map[] && newKey == "key")
          || (s.v.deletions == map["oid" := "key"] && s.v.owner == map["key" := "oid"])
    ensures Upserted(s, "oid", "mail", cipher, newKey, None) ==
            Tenant(SignedIn(s, cipher).v, s.r.(counter := s.r.counter + 1))
  {
    var u := Upserted(s, "oid", "mail", cipher, newKey, None);
    assert u.v.deletions == map[] && u.v.owner == map["key" := "oid"];
  }

  lemma OnlyAccountIsNext(u: Tenant)
    requires u.v.accounts.Keys == {"oid"} && u.r.health == map[]
    ensures IsNext(u, None, "", 0, "oid") && !Available(u, "", 0)
  {
    assert Candidate(u, "", 0, "oid");
  }

  function InProgress(landed: bool): map<Id, Flight> {
    map["oid" := PutFlight("key", 1, "old", landed)]
  }

  lemma FirstPutInProgress(s: Tenant)
    requires s == SignedIn(EMPTY, "old")
    ensures var t := s.(v := s.v.(jobs := map["oid" := [FlushMirror]]));
            && Allowed(s, Enqueue("oid", FlushMirror)) && Next(s, Enqueue("oid", FlushMirror)) == t
            && Allowed(t, Begin("oid")) && Next(t, Begin("oid")) == t.(v := t.v.(flights := InProgress(false)))
  {
    assert Chain(s.v, "oid") == [] && [] + [FlushMirror] == [FlushMirror];
    assert Enqueued(s.v, "oid", FlushMirror).jobs == map["oid" := [FlushMirror]];
    var t := s.(v := s.v.(jobs := map["oid" := [FlushMirror]]));
    assert Begun(t.v, "oid").flights == InProgress(false);
  }

  lemma DeletedMeanwhile(s: Tenant)
    requires s == SignedIn(EMPTY, "old").(v := SignedIn(EMPTY, "old").v.(jobs := map["oid" := [FlushMirror]], flights := InProgress(false)))
    ensures Allowed(s, Delete("oid", 0, ""))
    ensures Next(s, Delete("oid", 0, "")) ==
            Tenant(NO_CREDENTIALS.(jobs := s.v.jobs, flights := s.v.flights, owner := s.v.owner, deletions := map["oid" := "key"]),
                   Routing(map[], "", 2, 1))
  {
    var t := WithoutRow(s, "oid");
    assert t.v.accounts == map[] && t.v.queue == map[] && t.r.health == map[];
    assert forall c :: !Candidate(t, "", 0, c);
  }

  lemma OldPutConfirms(s: Tenant)
    requires s.v.accounts == map["oid" := Account("mail", "new", 1, "key", 2)] && s.v.queue == map["oid" := MirrorRow("key", 1)]
    requires s.v.kv == map[] && s.v.flights == InProgress(false)
    ensures Allowed(s, Land("oid"))
    ensures var t := Next(s, Land("oid")); Allowed(t, Settle("oid", true)) && !Converged(Next(t, Settle("oid", true)).v)
  {
    var t := Next(s, Land("oid"));
    var u := Next(t, Settle("oid", true));
    assert "oid" in u.v.accounts && "oid" !in u.v.queue && u.v.kv["key"] == "old";
  }

  /**
   * A concrete run that breaks property (a): an account is removed and authorised again while the put of
   * its first credential is in progress, so both incarnations are at revision 1.
   */
  lemma StaleConfirmHappens() returns (trace: seq<Tenant>, events: seq<Event>)
    ensures IsRun(trace, events) && trace[0] == EMPTY && !Converged(trace[|trace| - 1].v)
  {
    hide Allowed, Next, Converged;
    trace, events := [EMPTY], [];
    SignIn(EMPTY, "old", "key");
    trace, events := Extended(trace, events, FIRST);
    FirstPutInProgress(trace[1]);
    trace, events := Extended(trace, events, Enqueue("oid", FlushMirror));
    trace, events := Extended(trace, events, Begin("oid"));
    DeletedMeanwhile(trace[3]);
    trace, events := Extended(trace, events, Delete("oid", 0, ""));
    SignIn(trace[4], "new", "key2");
    trace, events := Extended(trace, events, AGAIN);
    OldPutConfirms(trace[5]);
    trace, events := Extended(trace, events, Land("oid"));
    trace, events := Extended(trace, events, Settle("oid", true));
  }

  lemma Extended(trace: seq<Tenant>, events: seq<Event>, e: Event) returns (trace': seq<Tenant>, events': seq<Event>)
    requires IsRun(trace, events) && Allowed(trace[|trace| - 1], e)
    ensures trace' == trace + [Next(trace[|trace| - 1], e)] && events' == events + [e]
    ensures IsRun(trace', events')
  {
    trace', events' := trace + [Next(trace[|trace| - 1], e)], events + [e];
    hide Allowed, Next;
    forall i | 0 <= i < |events'|
      ensures Allowed(trace'[i], events'[i]) && trace'[i + 1] == Next(trace'[i], events'[i])
    {
      if i < |events| { assert events'[i] == events[i]; }
    }
  }
}

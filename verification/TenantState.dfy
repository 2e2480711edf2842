/**
 * The tenant object: its tables are fields that each method updates in place.  A method
 * that the source splits by an await is split here into its synchronous turns.  Every
 * method reports the event it performed and is proved to take exactly that step.
 */
module TenantState {
  import opened Common
  import opened TenantModel

  lemma NothingRepeats()
    ensures DistinctTargets([]) && Targets([]) == {}
  {}

  lemma OneMoreRow(rows: seq<Imported>, row: Imported)
    ensures DistinctTargets(rows + [row]) <==> DistinctTargets(rows) && row.Target() !in Targets(rows)
    ensures Targets(rows + [row]) == Targets(rows) + {row.Target()}
    ensures NewAccounts(rows + [row]) == NewAccounts(rows) + if row.existing.None? then 1 else 0
  {
    var more := rows + [row];
    assert more[..|rows|] == rows && more[|rows|] == row;
    if row.Target() in Targets(rows) {
      var other :| other in rows && other.Target() == row.Target();
      var j :| 0 <= j < |rows| && rows[j] == other;
      assert more[j].Target() == more[|rows|].Target();
    }
    if DistinctTargets(more) {
      forall i, j | 0 <= i < j < |rows| ensures rows[i].Target() != rows[j].Target() {
        assert more[i].Target() != more[j].Target();
      }
    }
  }

  lemma ExistingAreStored(v: Vault, batch: seq<Imported>, resolved: seq<Imported>)
    requires |batch| == |resolved|
    requires forall i :: 0 <= i < |batch| ==> ResolvesFolded(v, batch[i].oid, batch[i].email, resolved[i].existing)
    ensures forall i :: 0 <= i < |resolved| && resolved[i].existing.Some? ==> resolved[i].existing.value in v.accounts
  {
    forall i | 0 <= i < |resolved| && resolved[i].existing.Some?
      ensures resolved[i].existing.value in v.accounts
    {
      assert ResolvesFolded(v, batch[i].oid, batch[i].email, resolved[i].existing);
    }
  }

  lemma FirstRow(v: Vault, batch: seq<Imported>)
    ensures ImportRows(v, batch, 0) == Shifted(v, |batch|) && Targets(batch[..0]) == {}
  {}

  lemma NextRow(v: Vault, batch: seq<Imported>, k: nat)
    requires k < |batch|
    ensures var u := ImportRows(v, batch, k);
            ImportRows(v, batch, k + 1) == Install(u, batch[k].Target(), RowAccount(u, batch[k], k + 1))
    ensures Targets(batch[..k + 1]) == Targets(batch[..k]) + {batch[k].Target()}
  {
    assert batch[..k + 1] == batch[..k] + [batch[k]];
    OneMoreRow(batch[..k], batch[k]);
  }

  class TenantState {
    var accounts: map<Id, Account>
    var health: map<Id, Health>
    var activeId: Id
    var epoch: nat
    var counter: int
    var queue: map<Id, MirrorRow>
    var deletions: map<Id, Key>
    var kv: map<Key, Cipher>
    var jobs: map<Id, seq<Job>>
    var flights: map<Id, Flight>
    ghost var owner: map<Key, Id>

    ghost function State(): Tenant
      reads this
    {
      Tenant(Vault(accounts, queue, deletions, owner, kv, jobs, flights), Routing(health, activeId, epoch, counter))
    }

    constructor ()
      ensures State() == EMPTY
    {
      accounts, health, activeId, epoch, counter := map[], map[], "", 0, 0;
      queue, deletions, kv, jobs, flights := map[], map[], map[], map[], map[];
      owner := map[];
    }

    method IsAvailable(id: Id, now: int) returns (available: bool)
      ensures available <==> Available(State(), id, now)
    {
      if id !in accounts { return false; }
      if id !in health { return true; }
      var row := health[id];
      available := !row.isolated && row.cooldownUntil <= now;
    }

    /** orderedAvailableAccounts: the first listed row other than `except`. */
    method FirstAvailable(after: Option<int>, except: Id, now: int) returns (r: Id)
      ensures IsNext(State(), after, except, now, r)
    {
      var todo, found := accounts.Keys, false;
      r := "";
      while todo != {}
        invariant todo <= accounts.Keys
        invariant found ==> Candidate(State(), except, now, r)
        invariant found ==> forall c :: c in accounts && c !in todo && Candidate(State(), except, now, c) ==>
                              Precedes(after, accounts[r].sequence, accounts[c].sequence)
        invariant !found ==> r == "" && forall c :: c in accounts && c !in todo ==> !Candidate(State(), except, now, c)
        decreases todo
      {
        var c :| c in todo;
        todo := todo - {c};
        var available := IsAvailable(c, now);
        if available && c != except && (!found || Precedes(after, accounts[c].sequence, accounts[r].sequence)) {
          r, found := c, true;
        }
      }
    }

    method EnsureActiveAccountRoute(now: int) returns (ghost e: Event)
      modifies this
      ensures e == Recover(now, activeId) && Allowed(old(State()), e) && State() == Next(old(State()), e)
    {
      var current := IsAvailable(activeId, now);
      if !current {
        var selected := FirstAvailable(None, "", now);
        epoch := epoch + if selected != "" && selected == activeId then 0 else 1;
        activeId := selected;
      }
      e := Recover(now, activeId);
    }

    method ReportAccountFailure(id: Id, kind: FailureKind, expected: Option<nat>, now: int) returns (ghost e: Event)
      modifies this
      ensures e.ReportFailure? && e.id == id && e.kind == kind && e.expected == expected && e.now == now
      ensures Allowed(old(State()), e) && State() == Next(old(State()), e)
    {
      hide Available, IsNext, FailureHealth, UpsertAllowed, Upserted, BatchAllowed, ImportAccepted, ImportedAll, Enqueued, Begun, Landed, Settled, Succeeded, Deleted, DeletedAllowed;
      e := ReportFailure(id, kind, expected, now, "", "");
      if id == "" || id !in accounts { return; }
      ghost var recovery := EnsureActiveAccountRoute(now);
      ghost var r := State();
      assert r == Recovered(old(State()), now, activeId);
      e := ReportFailure(id, kind, expected, now, activeId, "");
      if activeId != id || (expected.Some? && epoch != expected.value) { return; }
      health := health[id := FailureHealth(if id in health then Some(health[id]) else None, kind, now)];
      assert State() == WithFailure(r, id, kind, now);
      var replacement := FirstAvailable(Some(accounts[id].sequence), id, now);
      e := ReportFailure(id, kind, expected, now, activeId, replacement);
      activeId, epoch := replacement, epoch + 1;
    }

    method ReportAccountSuccess(id: Id, allowInactive: bool, now: int) returns (ghost e: Event)
      modifies this
      ensures e.ReportSuccess? && e.id == id && e.allowInactive == allowInactive && e.now == now
      ensures Allowed(old(State()), e) && State() == Next(old(State()), e)
    {
      e := ReportSuccess(id, allowInactive, now, "");
      if !allowInactive {
        ghost var recovery := EnsureActiveAccountRoute(now);
        e := ReportSuccess(id, allowInactive, now, activeId);
        if activeId != id { return; }
      }
      health := health[id := HEALTHY];
    }

    /** The exact-match lookup of an upsert. */
    method Lookup(oid: Id, email: string) returns (existing: Option<Id>)
      ensures Resolves(State().v, oid, email, existing)
    {
      if oid in accounts { return Some(oid); }
      var todo := accounts.Keys;
      while todo != {}
        invariant todo <= accounts.Keys
        invariant forall id :: id in accounts && id !in todo ==> accounts[id].email != email
        decreases todo
      {
        var id :| id in todo;
        if accounts[id].email == email { return Some(id); }
        todo := todo - {id};
      }
      existing := None;
    }

    /** The case-folding lookup of an import. */
    method LookupFolded(oid: Id, email: string) returns (existing: Option<Id>)
      ensures ResolvesFolded(State().v, oid, email, existing)
    {
      if oid in accounts { return Some(oid); }
      var todo := accounts.Keys;
      while todo != {}
        invariant todo <= accounts.Keys
        invariant forall id :: id in accounts && id !in todo ==> Lower(accounts[id].email) != Lower(email)
        decreases todo
      {
        var id :| id in todo;
        if Lower(accounts[id].email) == Lower(email) { return Some(id); }
        todo := todo - {id};
      }
      existing := None;
    }

    /** The two writes and the delete that install a credential in one transaction. */
    method WriteCredential(id: Id, row: Account)
      modifies this`accounts, this`queue, this`deletions, this`owner
      ensures State() == Tenant(Install(old(State()).v, id, row), old(State()).r)
    {
      accounts := accounts[id := row];
      queue := queue[id := MirrorRow(row.kvKey, row.revision)];
      deletions := deletions - {id};
      owner := owner[row.kvKey := id];
    }

    /** The upsert transaction; `newKey` is the random KV key drawn for it. */
    method UpsertAccount(oid: Id, email: string, cipher: Cipher, newKey: Key, limit: nat, now: int) returns (ok: bool, ghost e: Event)
      requires newKey !in owner
      modifies this
      ensures e.Upsert? && e.oid == oid && e.email == email && e.cipher == cipher && e.newKey == newKey && e.limit == limit && e.now == now
      ensures Allowed(old(State()), e) && State() == Next(old(State()), e)
      ensures ok <==> UpsertAccepted(old(State()).v, oid, email, limit, e.existing)
    {
      hide IsNext, Available, Install;
      var existing := Lookup(oid, email);
      e := Upsert(oid, email, cipher, newKey, limit, existing, now, "");
      if (oid == "" && email == "") || (existing.None? && |accounts| >= Max(1, limit)) { return false, e; }
      var id := if existing.Some? then existing.value else if oid != "" then oid else email;
      var key := if existing.Some? then accounts[existing.value].kvKey else if id in deletions then deletions[id] else newKey;
      var revision := if existing.Some? then accounts[existing.value].revision + 1 else 1;
      var sequence := if id in accounts then accounts[id].sequence else counter + 1;
      WriteCredential(id, Account(email, cipher, revision, key, sequence));
      if existing.None? { counter := counter + 1; }
      assert State() == Upserted(old(State()), oid, email, cipher, newKey, existing);
      ghost var recovery := EnsureActiveAccountRoute(now);
      e := Upsert(oid, email, cipher, newKey, limit, existing, now, activeId);
      ok := true;
    }

    method DeleteAccount(id: Id, now: int) returns (deleted: bool, ghost e: Event)
      modifies this
      ensures e.Delete? && e.id == id && e.now == now
      ensures Allowed(old(State()), e) && State() == Next(old(State()), e)
      ensures deleted <==> id in old(accounts)
    {
      hide Available, IsNext, UpsertAllowed, Upserted, BatchAllowed, ImportAccepted, ImportedAll, Enqueued, Begun, Landed, Settled, Succeeded, Failed, FailedAllowed, Recovered, RecoverAllowed;
      e := Delete(id, now, "");
      if id !in accounts { return false, e; }
      var row := accounts[id];
      accounts, health, queue := accounts - {id}, health - {id}, queue - {id};
      deletions := deletions[id := row.kvKey];
      if activeId == id {
        var replacement := FirstAvailable(Some(row.sequence), "", now);
        e := Delete(id, now, replacement);
        activeId, epoch := replacement, epoch + 1;
      }
      deleted := true;
    }

    ghost predicate ResolvedFrom(batch: seq<Imported>, resolved: seq<Imported>)
      requires |resolved| <= |batch|
      reads this
    {
      forall i :: 0 <= i < |resolved| ==>
        && resolved[i] == batch[i].(existing := resolved[i].existing)
        && ResolvesFolded(State().v, batch[i].oid, batch[i].email, resolved[i].existing)
    }

    /** Resolve every row of the batch against the table as it stands; report a repeated target. */
    method ResolveBatch(batch: seq<Imported>) returns (ok: bool, resolved: seq<Imported>, created: nat)
      ensures |resolved| == |batch| && created == NewAccounts(resolved)
      ensures ResolvedFrom(batch, resolved)
      ensures ok <==> DistinctTargets(resolved)
    {
      hide DistinctTargets;
      resolved, created, ok := [], 0, true;
      var claimed: set<Id> := {};
      NothingRepeats();
      for k := 0 to |batch|
        invariant |resolved| == k && created == NewAccounts(resolved)
        invariant ResolvedFrom(batch, resolved)
        invariant claimed == Targets(resolved)
        invariant ok <==> DistinctTargets(resolved)
      {
        var existing := LookupFolded(batch[k].oid, batch[k].email);
        var row := batch[k].(existing := existing);
        OneMoreRow(resolved, row);
        if row.Target() in claimed { ok := false; }
        claimed := claimed + {row.Target()};
        if existing.None? { created := created + 1; }
        resolved := resolved + [row];
      }
    }

    ghost predicate Unwritten(v: Vault, batch: seq<Imported>, k: nat)
      reads this
    {
      forall j :: k <= j < |batch| && batch[j].existing.Some? ==>
        var id := batch[j].existing.value;
        id in v.accounts && id in accounts && accounts[id].revision == v.accounts[id].revision && accounts[id].kvKey == v.accounts[id].kvKey
    }

    /** The write loop of an import, over rows read from the table before the loop. */
    method WriteBatch(resolved: seq<Imported>, before: map<Id, Account>)
      requires DistinctTargets(resolved) && before == accounts
      requires forall i :: 0 <= i < |resolved| && resolved[i].existing.Some? ==> resolved[i].existing.value in accounts
      modifies this`accounts, this`queue, this`deletions, this`owner, this`health
      ensures State() == Tenant(ImportRows(old(State()).v, resolved, |resolved|), old(State()).r.(health := old(health) - Targets(resolved)))
    {
      hide ImportRows, Targets;
      ghost var v := State().v;
      accounts := map id | id in accounts :: accounts[id].(sequence := accounts[id].sequence + |resolved|);
      assert State().v == Shifted(v, |resolved|);
      FirstRow(v, resolved);
      for k := 0 to |resolved|
        invariant State().v == ImportRows(v, resolved, k)
        invariant health == old(health) - Targets(resolved[..k])
        invariant activeId == old(activeId) && epoch == old(epoch) && counter == old(counter)
        invariant Unwritten(v, resolved, k)
      {
        var row := resolved[k];
        var id := row.Target();
        var key := if row.existing.Some? then before[row.existing.value].kvKey else if id in deletions then deletions[id] else row.newKey;
        var revision := if row.existing.Some? then before[row.existing.value].revision + 1 else 1;
        assert RowAccount(State().v, row, k + 1) == Account(row.email, row.cipher, revision, key, k + 1);
        WriteCredential(id, Account(row.email, row.cipher, revision, key, k + 1));
        health := health - {id};
        NextRow(v, resolved, k);
      }
      assert resolved[..|resolved|] == resolved;
    }

    /** The import transaction. */
    method ImportAccountMigration(batch: seq<Imported>, activeSequence: int, limit: nat) returns (ok: bool, ghost e: Event)
      requires forall i :: 0 <= i < |batch| ==> batch[i].oid != "" && batch[i].newKey !in owner
      requires forall i, j :: 0 <= i < j < |batch| ==> batch[i].newKey != batch[j].newKey
      modifies this
      ensures e.Import? && |e.batch| == |batch| && e.activeSequence == activeSequence && e.limit == limit
      ensures forall i :: 0 <= i < |batch| ==> e.batch[i] == batch[i].(existing := e.batch[i].existing)
      ensures Allowed(old(State()), e) && State() == Next(old(State()), e)
      ensures ok <==> ImportAccepted(old(State()).v, e.batch, limit)
    {
      hide ImportRows, DistinctTargets, ResolvesFolded, NewAccounts, MaxSequence, Targets, UpsertAllowed, Upserted, Enqueued, Begun,
           Landed, Settled, Succeeded, Deleted, DeletedAllowed, Failed, FailedAllowed, Recovered, RecoverAllowed;
      var distinct, resolved, created := ResolveBatch(batch);
      e := Import(resolved, activeSequence, limit);
      if !distinct || |accounts| + created > Max(1, limit) { return false, e; }
      ExistingAreStored(State().v, batch, resolved);
      WriteBatch(resolved, accounts);
      ActivateImported(resolved, activeSequence);
      ok := true;
    }

    /** The import's meta keys: the active account, a new epoch if it changed, and the sequence counter. */
    method ActivateImported(batch: seq<Imported>, activeSequence: int)
      modifies this`activeId, this`epoch, this`counter
      ensures State() == Tenant(old(State()).v, Routing(health, ImportActive(batch, activeSequence),
                  if old(activeId) == ImportActive(batch, activeSequence) then old(epoch) else old(epoch) + 1, MaxSequence(accounts)))
    {
      var active := if 1 <= activeSequence <= |batch| then batch[activeSequence - 1].Target() else "";
      epoch := if activeId == active then epoch else epoch + 1;
      activeId := active;
      counter := HighestSequence();
    }

    method HighestSequence() returns (m: int)
      ensures m == MaxSequence(accounts)
    {
      var todo, seen := accounts.Keys, false;
      m := 0;
      while todo != {}
        invariant todo <= accounts.Keys
        invariant seen <==> todo != accounts.Keys
        invariant seen ==> exists id :: id in accounts && accounts[id].sequence == m
        invariant !seen ==> m == 0
        invariant forall id :: id in accounts && id !in todo ==> accounts[id].sequence <= m
        decreases todo
      {
        var id :| id in todo;
        todo := todo - {id};
        m := if seen then Max(m, accounts[id].sequence) else accounts[id].sequence;
        seen := true;
      }
    }

    // ---- the serialised flushes ----

    /** enqueueCredentialMirrorOperation appends to the account's promise chain. */
    method EnqueueMirrorOperation(id: Id, job: Job)
      modifies this`jobs
      ensures Allowed(old(State()), Enqueue(id, job)) && State() == Next(old(State()), Enqueue(id, job))
    {
      jobs := jobs[id := (if id in jobs then jobs[id] else []) + [job]];
    }

    /** The first turn of flushCredentialMirror or flushCredentialDeletion, up to its KV call. */
    method BeginFlush(id: Id)
      requires id !in flights && id in jobs && jobs[id] != []
      modifies this
      ensures Allowed(old(State()), Begin(id)) && State() == Next(old(State()), Begin(id))
    {
      var job := jobs[id][0];
      var rest := jobs[id][1..];
      if job.FlushMirror? {
        if id in queue && id in accounts && accounts[id].revision == queue[id].revision {
          flights := flights[id := PutFlight(queue[id].kvKey, queue[id].revision, accounts[id].cipher, false)];
        } else {
          queue, jobs := queue - {id}, jobs[id := rest];
        }
      } else if id !in deletions {
        jobs := jobs[id := rest];
        assert deletions - {id} == deletions;
      } else if id in accounts {
        deletions, jobs := deletions - {id}, jobs[id := rest];
      } else {
        flights := flights[id := DeleteFlight(deletions[id], false)];
      }
    }

    /** The KV call takes effect. */
    method KvCallLands(id: Id)
      requires id in flights
      modifies this`kv, this`flights
      ensures Allowed(old(State()), Land(id)) && State() == Next(old(State()), Land(id))
    {
      var f := flights[id];
      if f.PutFlight? { kv := kv[f.kvKey := f.cipher]; } else { kv := kv - {f.kvKey}; }
      flights := flights[id := f.(landed := true)];
    }

    /** The turn after the KV call returned (`ok`) or threw. */
    method SettleFlush(id: Id, ok: bool)
      requires id in flights && (ok ==> flights[id].landed)
      modifies this
      ensures Allowed(old(State()), Settle(id, ok)) && State() == Next(old(State()), Settle(id, ok))
    {
      hide UpsertAllowed, Upserted, BatchAllowed, ImportAccepted, ImportedAll, Enqueued, Begun, Landed, Succeeded,
           Deleted, DeletedAllowed, Failed, FailedAllowed, Recovered, RecoverAllowed;
      var f := flights[id];
      if ok {
        if f.PutFlight? {
          if id in queue && queue[id].revision == f.revision { queue := queue - {id}; }
        } else {
          deletions := deletions - {id};
        }
      }
      flights := flights - {id};
      jobs := jobs[id := if id in jobs && jobs[id] != [] then jobs[id][1..] else []];
    }
  }
}

/**
 * What brings the two exceptions of the mirror about.  A key is lost only through an upsert that
 * replaces a live row it did not find, and a confirmation is stale only if the account was deleted
 * or replaced in that way while its put was in progress.
 */
module TenantMirrorCauses {
  import opened Common
  import opened TenantModel
  import opened TenantMirror

  /** The upsert replaces this account's row without having found it. */
  predicate ClobbersAccount(v: Vault, e: Event, id: Id) {
    Clobbers(v, e) && UpsertId(e.oid, e.email, e.existing) == id
  }

  predicate PutInProgress(v: Vault, id: Id) {
    id in v.flights && v.flights[id].PutFlight?
  }

  predicate Settles(e: Event, id: Id) {
    e.Settle? && e.id == id
  }

  // ---- which key an account holds ----

  /** The tables hold this key for the account. */
  predicate Holds(v: Vault, id: Id, key: Key) {
    CurrentKey(v, id) == Some(key)
  }

  lemma InstallHolds(v: Vault, owner: Id, a: Account, id: Id, key: Key)
    requires key in v.owner && KeyUsable(v, owner, a.kvKey)
    requires CurrentKey(v, owner).Some? ==> Holds(v, owner, a.kvKey)
    ensures Holds(Install(v, owner, a), id, key) <==> Holds(v, id, key)
  {}

  /** An import row carries its account's key forward, or a new key where there is none. */
  lemma RowCarriesKey(v: Vault, u: Vault, batch: seq<Imported>, k: nat)
    requires BatchAllowed(v, batch) && 0 < k <= |batch| && ImportAhead(v, u, batch, k - 1)
    requires v.accounts.Keys !! v.deletions.Keys
    ensures var id, key := batch[k - 1].Target(), RowAccount(u, batch[k - 1], k).kvKey;
            KeyUsable(u, id, key) && (CurrentKey(u, id).Some? ==> Holds(u, id, key))
  {
    var row := batch[k - 1];
    assert ResolvesFolded(v, row.oid, row.email, row.existing);
    assert row.Target() in u.accounts <==> row.Target() in v.accounts;
  }

  lemma {:induction false} ImportHolds(v: Vault, batch: seq<Imported>, k: nat, id: Id, key: Key)
    requires Inv(v) && BatchAllowed(v, batch) && DistinctTargets(batch) && k <= |batch| && key in v.owner
    ensures var u := ImportRows(v, batch, k); key in u.owner && (Holds(u, id, key) <==> Holds(v, id, key))
  {
    hide NoOrphans, Converged, BatchAllowed, DistinctTargets, ImportAhead, KeyUsable, FlightsOk, QueueCurrent, KeysOwned;
    if k > 0 {
      ImportHolds(v, batch, k - 1, id, key);
      ImportKeeps(v, batch, k - 1);
      var u := ImportRows(v, batch, k - 1);
      RowCarriesKey(v, u, batch, k);
      InstallHolds(u, batch[k - 1].Target(), RowAccount(u, batch[k - 1], k), id, key);
    }
  }

  /** A put in progress for a key that the tables no longer hold. */
  predicate PutIsStale(v: Vault, id: Id) {
    PutInProgress(v, id) && !Holds(v, id, v.flights[id].kvKey)
  }

  lemma UpsertHolds(s: Tenant, e: Event, id: Id, key: Key)
    requires Inv(s.v) && e.Upsert? && Resolves(s.v, e.oid, e.email, e.existing) && e.newKey !in s.v.owner
    requires UpsertAccepted(s.v, e.oid, e.email, e.limit, e.existing) && key in s.v.owner
    ensures Holds(Upserted(s, e.oid, e.email, e.cipher, e.newKey, e.existing).v, id, key) <==>
            Holds(s.v, id, key) && !ClobbersAccount(s.v, e, id)
  {
    hide NoOrphans, Converged, FlightsOk, QueueCurrent;
  }

  lemma DeletionKeepsKey(v: Vault, i: Id, id: Id)
    requires i in v.accounts
    ensures CurrentKey(Removed(v, i), id) == CurrentKey(v, id)
  {}

  lemma SettleKeepsKey(v: Vault, i: Id, ok: bool, id: Id)
    requires i in v.flights && PutInProgress(v, id)
    ensures CurrentKey(Settled(v, i, ok), id) == CurrentKey(v, id)
  {}

  /** A step changes which key an account with a put in progress holds only by clobbering it. */
  lemma StepHolds(s: Tenant, e: Event, id: Id)
    requires Inv(s.v) && Allowed(s, e) && PutInProgress(s.v, id)
    ensures Holds(Next(s, e).v, id, s.v.flights[id].kvKey) <==>
            Holds(s.v, id, s.v.flights[id].kvKey) && !ClobbersAccount(s.v, e, id)
  {
    hide Converged, NoOrphans, FlightsOk, QueueCurrent, Removed, Settled, Begun, Install, ImportRows;
    var key := s.v.flights[id].kvKey;
    match e
    case Upsert(oid, email, cipher, newKey, limit, existing, now, pick) =>
      if UpsertAccepted(s.v, oid, email, limit, existing) { UpsertHolds(s, e, id, key); }
    case Import(batch, _, limit) => if ImportAccepted(s.v, batch, limit) { ImportHolds(s.v, batch, |batch|, id, key); }
    case Delete(i, _, _) => if i in s.v.accounts { DeletionKeepsKey(s.v, i, id); }
    case Enqueue(_, _) =>
    case Begin(i) => KeyTables(s.v, i, id);
    case Land(_) =>
    case Settle(i, ok) => SettleKeepsKey(s.v, i, ok, id);
    case ReportFailure(_, _, _, _, _, _) =>
    case ReportSuccess(_, _, _, _) =>
    case Recover(_, _) =>
  }

  lemma KeyTables(v: Vault, i: Id, id: Id)
    requires Inv(v) && Chain(v, i) != []
    ensures CurrentKey(Begun(v, i), id) == CurrentKey(v, id)
  {
    hide Begun;
    BeginTables(v, i);
  }

  // ---- puts in progress, step by step ----

  /** The credential a put carries, if the account still is the one it was started for, at that revision. */
  predicate PutIsCurrent(v: Vault, id: Id)
    requires id in v.flights && v.flights[id].PutFlight?
  {
    var f := v.flights[id];
    && id in v.accounts && v.accounts[id].revision >= f.revision
    && (v.accounts[id].revision == f.revision ==> v.accounts[id].kvKey == f.kvKey && v.accounts[id].cipher == f.cipher)
  }

  lemma ImportKeepsFlights(v: Vault, batch: seq<Imported>)
    requires Inv(v) && BatchAllowed(v, batch) && DistinctTargets(batch)
    ensures ImportRows(v, batch, |batch|).flights == v.flights
  {
    hide Inv, BatchAllowed, DistinctTargets, ImportRows;
    ImportKeeps(v, batch, |batch|);
  }

  /** A put stays in progress until it settles, and starts on the credential and the key of its account. */
  lemma StepFlight(s: Tenant, e: Event, id: Id)
    requires Inv(s.v) && Allowed(s, e)
    ensures var v, u := s.v, Next(s, e).v;
            && (PutInProgress(v, id) ==> (PutInProgress(u, id) <==> !Settles(e, id)))
            && (PutInProgress(v, id) && PutInProgress(u, id) ==> u.flights[id] == v.flights[id].(landed := u.flights[id].landed))
            && (!PutInProgress(v, id) && PutInProgress(u, id) ==> Holds(u, id, u.flights[id].kvKey) && PutIsCurrent(u, id))
  {
    hide BatchAllowed, DistinctTargets, ImportRows, KeysOwned, FlightsOk;
    if e.Import? && ImportAccepted(s.v, e.batch, e.limit) { ImportKeepsFlights(s.v, e.batch); }
  }

  /** The account's credential is the same, or a later revision of it. */
  predicate Succeeds(v: Vault, u: Vault, id: Id)
    requires id in v.accounts
  {
    && id in u.accounts && u.accounts[id].revision >= v.accounts[id].revision
    && (u.accounts[id].revision == v.accounts[id].revision ==>
         u.accounts[id].kvKey == v.accounts[id].kvKey && u.accounts[id].cipher == v.accounts[id].cipher)
  }

  lemma RowSucceeds(v: Vault, u: Vault, batch: seq<Imported>, k: nat, id: Id)
    requires BatchAllowed(v, batch) && 0 < k <= |batch| && ImportAhead(v, u, batch, k - 1)
    requires id in v.accounts && id in u.accounts
    ensures Succeeds(u, Install(u, batch[k - 1].Target(), RowAccount(u, batch[k - 1], k)), id)
  {
    hide CurrentKey;
    var row := batch[k - 1];
    assert ResolvesFolded(v, row.oid, row.email, row.existing);
    assert row.Target() in u.accounts <==> row.Target() in v.accounts;
  }

  lemma {:induction false} ImportSucceeds(v: Vault, batch: seq<Imported>, k: nat, id: Id)
    requires Inv(v) && BatchAllowed(v, batch) && DistinctTargets(batch) && k <= |batch| && id in v.accounts
    ensures Succeeds(v, ImportRows(v, batch, k), id)
  {
    hide Inv, NoOrphans, Converged, BatchAllowed, DistinctTargets, ImportAhead, Install;
    if k > 0 {
      ImportSucceeds(v, batch, k - 1, id);
      ImportKeeps(v, batch, k - 1);
      RowSucceeds(v, ImportRows(v, batch, k - 1), batch, k, id);
    }
  }

  predicate Deletes(e: Event, id: Id) {
    e.Delete? && e.id == id
  }

  lemma UpsertSucceeds(s: Tenant, e: Event, id: Id)
    requires e.Upsert? && Resolves(s.v, e.oid, e.email, e.existing) && UpsertAccepted(s.v, e.oid, e.email, e.limit, e.existing)
    requires id in s.v.accounts && !ClobbersAccount(s.v, e, id)
    ensures Succeeds(s.v, Upserted(s, e.oid, e.email, e.cipher, e.newKey, e.existing).v, id)
  {}

  lemma StepSucceeds(s: Tenant, e: Event, id: Id)
    requires Inv(s.v) && Allowed(s, e) && id in s.v.accounts && !Deletes(e, id) && !ClobbersAccount(s.v, e, id)
    ensures Succeeds(s.v, Next(s, e).v, id)
  {
    hide Inv, BatchAllowed, DistinctTargets, ImportRows, RecoverAllowed, DeletedAllowed, FailedAllowed, Upserted;
    if e.Import? && ImportAccepted(s.v, e.batch, e.limit) { ImportSucceeds(s.v, e.batch, |e.batch|, id); }
    if e.Upsert? && UpsertAccepted(s.v, e.oid, e.email, e.limit, e.existing) { UpsertSucceeds(s, e, id); }
  }

  // ---- whole runs ----

  ghost predicate Unsettled(events: seq<Event>, i: nat, n: nat, id: Id)
    requires n <= |events|
  {
    forall j :: i <= j < n ==> !Settles(events[j], id)
  }

  /** Before point n the account was clobbered while the put still in progress at n was in progress. */
  ghost predicate ClobberedInProgress(trace: seq<Tenant>, events: seq<Event>, n: nat, id: Id)
    requires n <= |events| <= |trace|
  {
    exists i :: 0 <= i < n && PutInProgress(trace[i].v, id) && ClobbersAccount(trace[i].v, events[i], id) && Unsettled(events, i, n, id)
  }

  lemma ClobberedStep(trace: seq<Tenant>, events: seq<Event>, n: nat, id: Id)
    requires n < |events| <= |trace|
    ensures ClobberedInProgress(trace, events, n + 1, id) <==>
            && !Settles(events[n], id)
            && (ClobberedInProgress(trace, events, n, id) || (PutInProgress(trace[n].v, id) && ClobbersAccount(trace[n].v, events[n], id)))
  {
    hide UpsertAccepted;
    if !Settles(events[n], id) {
      if ClobberedInProgress(trace, events, n, id) {
        var i :| 0 <= i < n && PutInProgress(trace[i].v, id) && ClobbersAccount(trace[i].v, events[i], id) && Unsettled(events, i, n, id);
        assert Unsettled(events, i, n + 1, id);
      } else if PutInProgress(trace[n].v, id) && ClobbersAccount(trace[n].v, events[n], id) {
        assert Unsettled(events, n, n + 1, id);
      }
    }
    if ClobberedInProgress(trace, events, n + 1, id) {
      var i :| 0 <= i < n + 1 && PutInProgress(trace[i].v, id) && ClobbersAccount(trace[i].v, events[i], id) && Unsettled(events, i, n + 1, id);
      if i < n { assert Unsettled(events, i, n, id); }
    }
  }

  /** A put in progress is stale exactly when its account was clobbered since it began. */
  lemma {:induction false} StaleExactly(trace: seq<Tenant>, events: seq<Event>, n: nat, id: Id)
    requires IsRun(trace, events) && trace[0] == EMPTY && n <= |events|
    ensures PutIsStale(trace[n].v, id) <==> ClobberedInProgress(trace, events, n, id)
  {
    hide Inv, Allowed, Next, CurrentKey, ClobberedInProgress, ClobbersAccount;
    if n > 0 {
      StaleExactly(trace, events, n - 1, id);
      RunInv(trace, events, n - 1);
      StepFlight(trace[n - 1], events[n - 1], id);
      if PutInProgress(trace[n - 1].v, id) { StepHolds(trace[n - 1], events[n - 1], id); }
      ClobberedStep(trace, events, n - 1, id);
    } else {
      NothingInProgress(trace, events, id);
    }
  }

  lemma NothingInProgress(trace: seq<Tenant>, events: seq<Event>, id: Id)
    requires IsRun(trace, events) && trace[0] == EMPTY
    ensures !ClobberedInProgress(trace, events, 0, id) && !PutInProgress(trace[0].v, id)
  {}

  // ---- what orphans a KV entry ----

  /** The upsert replaces a live row it did not find, and the key of that row is mirrored. */
  predicate ClobbersMirroredKey(v: Vault, e: Event) {
    Clobbers(v, e) && v.accounts[UpsertId(e.oid, e.email, e.existing)].kvKey in v.kv
  }

  /** A put lands whose account was clobbered since it began. */
  ghost predicate LandsAfterClobber(trace: seq<Tenant>, events: seq<Event>, n: nat)
    requires n < |events| <= |trace|
  {
    var e := events[n];
    e.Land? && PutInProgress(trace[n].v, e.id) && ClobberedInProgress(trace, events, n, e.id)
  }

  ghost predicate NoClobberedEntry(trace: seq<Tenant>, events: seq<Event>, n: nat)
    requires n <= |events| <= |trace|
  {
    forall i :: 0 <= i < n ==> !ClobbersMirroredKey(trace[i].v, events[i]) && !LandsAfterClobber(trace, events, i)
  }

  /**
   * Property (c) over whole runs: it holds throughout exactly when no upsert clobbered an account whose
   * key was mirrored, or was just being mirrored by a put that landed afterwards.
   */
  lemma NoOrphansExactly(trace: seq<Tenant>, events: seq<Event>, n: nat)
    requires IsRun(trace, events) && trace[0] == EMPTY && n < |trace|
    ensures NoOrphansUpTo(trace, n) <==> NoClobberedEntry(trace, events, n)
  {
    hide IsRun, NoOrphansUpTo, Clobbers, ClobberedInProgress, CurrentKey;
    assert |trace| == |events| + 1 by { RunLength(trace, events); }
    NoOrphanEntries(trace, events, n);
    forall i | 0 <= i < n
      ensures LosesKey(trace[i].v, events[i]) <==> ClobbersMirroredKey(trace[i].v, events[i]) || LandsAfterClobber(trace, events, i)
    {
      if events[i].Land? { StaleExactly(trace, events, i, events[i].id); }
    }
  }

  lemma RunLength(trace: seq<Tenant>, events: seq<Event>)
    requires IsRun(trace, events)
    ensures |trace| == |events| + 1
  {}

  /** So a tenant whose sign-ins all carry an object id never has an orphaned KV entry. */
  lemma ObjectIdsLeaveNoOrphans(trace: seq<Tenant>, events: seq<Event>, n: nat)
    requires IsRun(trace, events) && trace[0] == EMPTY && n < |trace|
    requires forall i :: 0 <= i < n && events[i].Upsert? ==> events[i].oid != ""
    ensures NoOrphansUpTo(trace, n)
  {
    hide NoOrphansUpTo, Next;
    NoOrphansExactly(trace, events, n);
    forall i | 0 <= i < n
      ensures !Clobbers(trace[i].v, events[i])
    {
      if Clobbers(trace[i].v, events[i]) { ClobberNeedsMissingObjectId(trace[i], events[i]); }
    }
  }

  // ---- what makes a confirmation stale ----

  /** Before point n the account was deleted or clobbered while the put still in progress at n was in progress. */
  ghost predicate ReplacedInProgress(trace: seq<Tenant>, events: seq<Event>, n: nat, id: Id)
    requires n <= |events| <= |trace|
  {
    exists i :: 0 <= i < n && PutInProgress(trace[i].v, id)
      && (Deletes(events[i], id) || ClobbersAccount(trace[i].v, events[i], id)) && Unsettled(events, i, n, id)
  }

  lemma ReplacedStep(trace: seq<Tenant>, events: seq<Event>, n: nat, id: Id)
    requires n < |events| <= |trace| && PutInProgress(trace[n].v, id) && !Settles(events[n], id)
    ensures ReplacedInProgress(trace, events, n, id) || Deletes(events[n], id) || ClobbersAccount(trace[n].v, events[n], id) ==>
              ReplacedInProgress(trace, events, n + 1, id)
  {
    hide UpsertAccepted;
    if ReplacedInProgress(trace, events, n, id) {
      var i :| 0 <= i < n && PutInProgress(trace[i].v, id)
               && (Deletes(events[i], id) || ClobbersAccount(trace[i].v, events[i], id)) && Unsettled(events, i, n, id);
      assert Unsettled(events, i, n + 1, id);
    } else {
      assert Unsettled(events, n, n + 1, id);
    }
  }

  lemma {:induction false} CurrentUnlessReplaced(trace: seq<Tenant>, events: seq<Event>, n: nat, id: Id)
    requires IsRun(trace, events) && trace[0] == EMPTY && n <= |events|
    requires PutInProgress(trace[n].v, id)
    ensures PutIsCurrent(trace[n].v, id) || ReplacedInProgress(trace, events, n, id)
  {
    hide Inv, Allowed, Next, CurrentKey, ReplacedInProgress, ClobbersAccount, Deletes;
    if n > 0 {
      RunInv(trace, events, n - 1);
      var s, e := trace[n - 1], events[n - 1];
      StepFlight(s, e, id);
      if PutInProgress(s.v, id) {
        CurrentUnlessReplaced(trace, events, n - 1, id);
        ReplacedStep(trace, events, n - 1, id);
        if !Deletes(e, id) && !ClobbersAccount(s.v, e, id) && id in s.v.accounts { StepSucceeds(s, e, id); }
      }
    } else {
      NothingInProgress(trace, events, id);
    }
  }

  /** A confirmation is stale only if its account was deleted or clobbered while the put was in progress. */
  lemma StaleConfirmNeedsReplacement(trace: seq<Tenant>, events: seq<Event>, n: nat)
    requires IsRun(trace, events) && trace[0] == EMPTY && n < |events| && StaleConfirm(trace[n].v, events[n])
    ensures ReplacedInProgress(trace, events, n, events[n].id)
  {
    hide Allowed, Next, NoOrphans, KeysOwned, FlightsOk, ReplacedInProgress;
    RunInv(trace, events, n);
    CurrentUnlessReplaced(trace, events, n, events[n].id);
  }

  // ---- the run that breaks property (c) ----

  const BY_EMAIL := Upsert("", "a", "old", "key", 2, None, 0, "a")
  const RENAMED := Imported(Some("a"), "oid", "A", "new", "spare")
  const AGAIN_BY_EMAIL := Upsert("", "a", "newer", "key2", 2, None, 0, "a")

  lemma SignInByEmail()
    ensures Allowed(EMPTY, BY_EMAIL)
    ensures var t := Next(EMPTY, BY_EMAIL);
            && t.v == NO_CREDENTIALS.(accounts := map["a" := Account("a", "old", 1, "key", 1)], queue := map["a" := MirrorRow("key", 1)],
                                      owner := map["key" := "a"])
            && t.r == Routing(map[], "a", 1, 1)
  {
    hide IsNext, Available;
    var u := Upserted(EMPTY, "", "a", "old", "key", None);
    assert u.v.deletions == map[];
    assert Candidate(u, "", 0, "a") && IsNext(u, None, "", 0, "a") && !Available(u, "", 0) by { FirstIsNext(u); }
  }

  lemma FirstIsNext(u: Tenant)
    requires u.v.accounts.Keys == {"a"} && u.r.health == map[]
    ensures Candidate(u, "", 0, "a") && IsNext(u, None, "", 0, "a") && !Available(u, "", 0)
  {
    assert Candidate(u, "", 0, "a");
  }

  /** What the rest of the run needs to know of a state. */
  ghost predicate Mirrored(s: Tenant, email: string) {
    && s.v.accounts.Keys == {"a"} && s.v.accounts["a"].email == email && s.v.accounts["a"].kvKey == "key"
    && s.v.deletions == map[] && s.v.owner == map["key" := "a"] && "key" in s.v.kv && s.r.activeId == "a" && "a" !in s.r.health
  }

  lemma FirstPutLands(s: Tenant)
    requires s.v == NO_CREDENTIALS.(accounts := map["a" := Account("a", "old", 1, "key", 1)], queue := map["a" := MirrorRow("key", 1)],
                                    owner := map["key" := "a"])
    requires s.r == Routing(map[], "a", 1, 1)
    ensures Allowed(s, Enqueue("a", FlushMirror))
    ensures var t := Next(s, Enqueue("a", FlushMirror));
            && Allowed(t, Begin("a"))
            && var u := Next(t, Begin("a")); Allowed(u, Land("a")) && Mirrored(Next(u, Land("a")), "a")
  {
    assert Chain(s.v, "a") == [] && [] + [FlushMirror] == [FlushMirror];
    var t := Next(s, Enqueue("a", FlushMirror));
    assert Chain(t.v, "a") == [FlushMirror];
    var u := Next(t, Begin("a"));
    assert u.v.flights == map["a" := PutFlight("key", 1, "old", false)];
  }

  /** An import that names the account by its e-mail in another letter case renames it. */
  lemma ImportRenames(s: Tenant)
    requires Mirrored(s, "a")
    ensures Allowed(s, Import([RENAMED], 1, 2)) && Mirrored(Next(s, Import([RENAMED], 1, 2)), "A")
  {
    hide MaxSequence;
    assert Lower("A") == Lower("a");
    var u := ImportRows(s.v, [RENAMED], 0);
    assert ImportRows(s.v, [RENAMED], 1) == Install(u, "a", RowAccount(u, RENAMED, 1));
    assert NewAccounts([RENAMED]) == 0 && |s.v.accounts| == |s.v.accounts.Keys|;
  }

  /** A sign-in by e-mail no longer finds the account, takes the e-mail for a new id and replaces the key. */
  lemma SignInClobbers(s: Tenant)
    requires Mirrored(s, "A")
    ensures Allowed(s, AGAIN_BY_EMAIL) && !NoOrphans(Next(s, AGAIN_BY_EMAIL).v)
  {
    assert |s.v.accounts| == |s.v.accounts.Keys|;
    var u := Upserted(s, "", "a", "newer", "key2", None);
    assert Available(u, "a", 0);
    assert CurrentKey(u.v, "a") == Some("key2") && u.v.owner["key"] == "a" && "key" in u.v.kv;
  }

  /** A concrete run from the empty tenant that leaves an orphaned KV entry. */
  lemma OrphanHappens() returns (trace: seq<Tenant>, events: seq<Event>)
    ensures IsRun(trace, events) && trace[0] == EMPTY && !NoOrphans(trace[|trace| - 1].v)
  {
    hide Allowed, Next, NoOrphans, Mirrored;
    trace, events := [EMPTY], [];
    SignInByEmail();
    trace, events := Extended(trace, events, BY_EMAIL);
    FirstPutLands(trace[1]);
    trace, events := Extended(trace, events, Enqueue("a", FlushMirror));
    trace, events := Extended(trace, events, Begin("a"));
    trace, events := Extended(trace, events, Land("a"));
    ImportRenames(trace[4]);
    trace, events := Extended(trace, events, Import([RENAMED], 1, 2));
    SignInClobbers(trace[5]);
    trace, events := Extended(trace, events, AGAIN_BY_EMAIL);
  }
}

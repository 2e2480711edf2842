/**
 * The persisted active-account route: a fencing epoch, a cyclic order over distinct
 * sequence numbers, and failure reports that act at most once per epoch.
 */
module TenantRouting {
  import opened Common
  import opened TenantModel

  /** Sequence numbers are positive, within the counter, and pairwise distinct. */
  ghost predicate Sequenced(s: Tenant) {
    && 0 <= s.r.counter && "" !in s.v.accounts
    && (forall id :: id in s.v.accounts ==> 1 <= s.v.accounts[id].sequence <= s.r.counter)
    && DistinctSequences(s.v)
  }

  ghost predicate DistinctSequences(v: Vault) {
    forall i, j :: i in v.accounts && j in v.accounts && v.accounts[i].sequence == v.accounts[j].sequence ==> i == j
  }

  // ---- what an import does to the order ----

  ghost predicate Renumbered(v: Vault, u: Vault, batch: seq<Imported>, k: nat)
    requires k <= |batch|
  {
    && (forall j :: 0 <= j < k ==> batch[j].Target() in u.accounts && u.accounts[batch[j].Target()].sequence == j + 1)
    && (forall id :: id in v.accounts ==> id in u.accounts)
    && (forall id :: id in u.accounts && id !in Targets(batch[..k]) ==>
          id in v.accounts && u.accounts[id].sequence == v.accounts[id].sequence + |batch|)
  }

  lemma OneMoreTarget(batch: seq<Imported>, k: nat, id: Id)
    requires 0 < k <= |batch|
    ensures id in Targets(batch[..k]) <==> id in Targets(batch[..k - 1]) || id == batch[k - 1].Target()
  {
    var short, long := batch[..k - 1], batch[..k];
    assert long == short + [batch[k - 1]];
    assert forall row :: row in long <==> row in short || row == batch[k - 1];
  }

  lemma RenumberStep(v: Vault, u: Vault, w: Vault, batch: seq<Imported>, k: nat)
    requires DistinctTargets(batch) && 0 < k <= |batch| && Renumbered(v, u, batch, k - 1)
    requires batch[k - 1].Target() in w.accounts && w.accounts[batch[k - 1].Target()].sequence == k
    requires w.accounts == u.accounts[batch[k - 1].Target() := w.accounts[batch[k - 1].Target()]]
    ensures Renumbered(v, w, batch, k)
  {
    hide Targets;
    forall id | id in w.accounts && id !in Targets(batch[..k])
      ensures id in v.accounts && w.accounts[id].sequence == v.accounts[id].sequence + |batch|
    {
      OneMoreTarget(batch, k, id);
    }
  }

  lemma RenumberStart(v: Vault, batch: seq<Imported>)
    ensures Renumbered(v, Shifted(v, |batch|), batch, 0)
  {}

  lemma RowWritten(v: Vault, batch: seq<Imported>, k: nat)
    requires 0 < k <= |batch|
    ensures var u, w, id := ImportRows(v, batch, k - 1), ImportRows(v, batch, k), batch[k - 1].Target();
            id in w.accounts && w.accounts[id].sequence == k && w.accounts == u.accounts[id := w.accounts[id]]
  {
    hide ChosenKey, ChosenRevision;
  }

  lemma {:induction false} ImportRenumbers(v: Vault, batch: seq<Imported>, k: nat)
    requires DistinctTargets(batch) && k <= |batch|
    ensures Renumbered(v, ImportRows(v, batch, k), batch, k)
  {
    if k == 0 {
      hide Renumbered;
      RenumberStart(v, batch);
    } else {
      hide Renumbered, ImportRows, DistinctTargets;
      ImportRenumbers(v, batch, k - 1);
      RowWritten(v, batch, k);
      RenumberStep(v, ImportRows(v, batch, k - 1), ImportRows(v, batch, k), batch, k);
    }
  }

  lemma TargetIndex(batch: seq<Imported>, id: Id) returns (j: nat)
    requires id in Targets(batch)
    ensures j < |batch| && batch[j].Target() == id
  {
    var row :| row in batch && row.Target() == id;
    j :| 0 <= j < |batch| && batch[j] == row;
  }

  /** Where an account of the batch stands after the import. */
  lemma InBatch(v: Vault, u: Vault, batch: seq<Imported>, id: Id) returns (j: nat)
    requires Renumbered(v, u, batch, |batch|) && id in Targets(batch)
    ensures j < |batch| && batch[j].Target() == id && id in u.accounts && u.accounts[id].sequence == j + 1
  {
    hide Targets;
    j := TargetIndex(batch, id);
  }

  /** And one outside it. */
  lemma OutsideBatch(v: Vault, u: Vault, batch: seq<Imported>, id: Id)
    requires Renumbered(v, u, batch, |batch|) && id in u.accounts && id !in Targets(batch)
    ensures id in v.accounts && u.accounts[id].sequence == v.accounts[id].sequence + |batch|
  {
    hide Targets;
    assert batch[..|batch|] == batch;
  }

  lemma RenumberedDistinct(v: Vault, u: Vault, batch: seq<Imported>, i: Id, j: Id)
    requires Renumbered(v, u, batch, |batch|) && DistinctSequences(v)
    requires forall id :: id in v.accounts ==> v.accounts[id].sequence >= 1
    requires i in u.accounts && j in u.accounts && u.accounts[i].sequence == u.accounts[j].sequence
    ensures i == j
  {
    hide Renumbered, Targets;
    if i in Targets(batch) { var a := InBatch(v, u, batch, i); } else { OutsideBatch(v, u, batch, i); }
    if j in Targets(batch) { var b := InBatch(v, u, batch, j); } else { OutsideBatch(v, u, batch, j); }
  }

  lemma RenumberedPositive(v: Vault, u: Vault, batch: seq<Imported>, i: Id)
    requires Renumbered(v, u, batch, |batch|) && BatchAllowed(v, batch) && "" !in v.accounts
    requires forall id :: id in v.accounts ==> v.accounts[id].sequence >= 1
    requires i in u.accounts
    ensures 1 <= u.accounts[i].sequence && i != ""
  {
    hide Renumbered, Targets;
    if i in Targets(batch) {
      var a := InBatch(v, u, batch, i);
      assert ResolvesFolded(v, batch[a].oid, batch[a].email, batch[a].existing);
    } else {
      OutsideBatch(v, u, batch, i);
    }
  }

  lemma ImportSequenced(s: Tenant, batch: seq<Imported>, activeSequence: int)
    requires Sequenced(s) && DistinctTargets(batch) && BatchAllowed(s.v, batch)
    ensures Sequenced(ImportedAll(s, batch, activeSequence))
  {
    hide ImportRows, DistinctTargets, BatchAllowed, Renumbered, Targets;
    var u := ImportRows(s.v, batch, |batch|);
    ImportRenumbers(s.v, batch, |batch|);
    forall i, j | i in u.accounts && j in u.accounts && u.accounts[i].sequence == u.accounts[j].sequence ensures i == j {
      RenumberedDistinct(s.v, u, batch, i, j);
    }
    forall i | i in u.accounts ensures 1 <= u.accounts[i].sequence && i != "" { RenumberedPositive(s.v, u, batch, i); }
  }

  /**
   * An import puts its batch first, numbered in the order given, and keeps the relative order of
   * every account outside the batch.
   */
  lemma ImportKeepsOrder(s: Tenant, e: Event, i: Id, j: Id)
    requires Sequenced(s) && Allowed(s, e) && e.Import? && ImportAccepted(s.v, e.batch, e.limit)
    requires i in s.v.accounts && j in s.v.accounts && i !in Targets(e.batch)
    ensures var u := Next(s, e).v;
      && (forall k :: 0 <= k < |e.batch| ==> e.batch[k].Target() in u.accounts && u.accounts[e.batch[k].Target()].sequence == k + 1)
      && i in u.accounts && j in u.accounts
      && (j !in Targets(e.batch) ==>
            (u.accounts[i].sequence < u.accounts[j].sequence <==> s.v.accounts[i].sequence < s.v.accounts[j].sequence))
      && (j in Targets(e.batch) ==> u.accounts[j].sequence < u.accounts[i].sequence)
  {
    ImportRenumbers(s.v, e.batch, |e.batch|);
    assert e.batch[..|e.batch|] == e.batch;
    if j in Targets(e.batch) { var k := TargetIndex(e.batch, j); }
  }

  lemma UpsertSequenced(s: Tenant, oid: Id, email: string, cipher: Cipher, newKey: Key, existing: Option<Id>)
    requires Sequenced(s) && Resolves(s.v, oid, email, existing) && (oid != "" || email != "")
    ensures Sequenced(Upserted(s, oid, email, cipher, newKey, existing))
  {
    assert existing.Some? ==> existing.value in s.v.accounts;
  }

  lemma RecoveredSequenced(s: Tenant, now: int, pick: Id)
    ensures Sequenced(Recovered(s, now, pick)) <==> Sequenced(s)
  {}

  lemma SameRowsSequenced(s: Tenant, t: Tenant)
    requires Sequenced(s) && t.v.accounts == s.v.accounts && t.r.counter == s.r.counter
    ensures Sequenced(t)
  {}

  lemma DeletedSequenced(s: Tenant, id: Id, pick: Id)
    requires Sequenced(s)
    ensures Sequenced(Deleted(s, id, pick))
  {}

  /** Sequence numbers stay distinct under every step. */
  lemma SequencedStep(s: Tenant, e: Event)
    requires Sequenced(s) && Allowed(s, e)
    ensures Sequenced(Next(s, e))
  {
    hide Sequenced, Recovered, RecoverAllowed, Upserted, ImportedAll, Deleted, DeletedAllowed, BatchAllowed, Begun, FailedAllowed;
    match e
    case Upsert(oid, email, cipher, newKey, limit, existing, now, pick) =>
      if UpsertAccepted(s.v, oid, email, limit, existing) {
        UpsertSequenced(s, oid, email, cipher, newKey, existing);
        RecoveredSequenced(Upserted(s, oid, email, cipher, newKey, existing), now, pick);
      }
    case Import(batch, activeSequence, limit) => if ImportAccepted(s.v, batch, limit) { ImportSequenced(s, batch, activeSequence); }
    case Delete(id, _, pick) => DeletedSequenced(s, id, pick);
    case Enqueue(_, _) => SameRowsSequenced(s, Next(s, e));
    case Begin(id) =>
      BeginKeepsAccounts(s.v, id);
      SameRowsSequenced(s, Next(s, e));
    case Land(_) => SameRowsSequenced(s, Next(s, e));
    case Settle(_, _) => SameRowsSequenced(s, Next(s, e));
    case ReportFailure(id, _, _, now, recovered, _) =>
      RecoveredSequenced(s, now, recovered);
      SameRowsSequenced(if id == "" || id !in s.v.accounts then s else Recovered(s, now, recovered), Next(s, e));
    case ReportSuccess(_, _, now, pick) =>
      RecoveredSequenced(s, now, pick);
      SameRowsSequenced(if e.allowInactive then s else Recovered(s, now, pick), Next(s, e));
    case Recover(now, pick) => RecoveredSequenced(s, now, pick);
  }

  lemma BeginKeepsAccounts(v: Vault, id: Id)
    requires Chain(v, id) != []
    ensures Begun(v, id).accounts == v.accounts
  {}

  lemma {:induction false} SequencesStayDistinct(trace: seq<Tenant>, events: seq<Event>, n: nat)
    requires IsRun(trace, events) && trace[0] == EMPTY && n < |trace|
    ensures Sequenced(trace[n])
  {
    if n > 0 {
      SequencesStayDistinct(trace, events, n - 1);
      SequencedStep(trace[n - 1], events[n - 1]);
    }
  }

  // ---- the fencing epoch ----

  /** The epoch never decreases, and a change of active account raises it. */
  ghost predicate Fenced(r: Routing, r': Routing) {
    r.epoch <= r'.epoch && (r.activeId != r'.activeId ==> r.epoch < r'.epoch)
  }

  lemma FencedStep(s: Tenant, e: Event)
    requires Allowed(s, e)
    ensures Fenced(s.r, Next(s, e).r)
  {}

  lemma {:induction false} EpochFencesRoute(trace: seq<Tenant>, events: seq<Event>, m: nat, n: nat)
    requires IsRun(trace, events) && m <= n < |trace|
    ensures Fenced(trace[m].r, trace[n].r)
    decreases n - m
  {
    if m < n {
      EpochFencesRoute(trace, events, m, n - 1);
      FencedStep(trace[n - 1], events[n - 1]);
    }
  }

  // ---- failure reports ----

  /** The report passes the compare-and-swap. */
  predicate Accepted(s: Tenant, e: Event) {
    e.ReportFailure? && e.id != "" && e.id in s.v.accounts && Accepts(Recovered(s, e.now, e.recovered).r, e.id, e.expected)
  }

  /** A report that fails the compare-and-swap changes no health row and no account, and never advances past recovery. */
  lemma StaleReportChangesNoHealth(s: Tenant, e: Event)
    requires Allowed(s, e) && e.ReportFailure? && !Accepted(s, e)
    ensures Next(s, e).r.health == s.r.health && Next(s, e).v == s.v
    ensures Available(s, s.r.activeId, e.now) ==> Next(s, e) == s
  {}

  /** An accepted report changes only the reported account's health and moves the route on by one epoch. */
  lemma AcceptedReportAdvances(s: Tenant, e: Event)
    requires Allowed(s, e) && Accepted(s, e)
    ensures var t := Next(s, e);
      && t.v == s.v && t.r.health.Keys == s.r.health.Keys + {e.id}
      && (forall id :: id in s.r.health && id != e.id ==> t.r.health[id] == s.r.health[id])
      && !Available(t, e.id, e.now)
      && t.r.activeId != e.id
      && (e.expected.Some? ==> t.r.epoch == e.expected.value + 1)
  {
    var r := Recovered(s, e.now, e.recovered);
    var f := FailureHealth(if e.id in r.r.health then Some(r.r.health[e.id]) else None, e.kind, e.now);
    CooldownIsAhead(if e.id in r.r.health then Some(r.r.health[e.id]) else None, e.kind, e.now);
    assert Next(s, e).r.health[e.id] == f;
    assert e.id in s.v.accounts;
    if exists c :: Candidate(WithFailure(r, e.id, e.kind, e.now), e.id, e.now, c) {
    } else {
      assert e.pick == "";
    }
  }

  lemma CooldownIsAhead(previous: Option<Health>, kind: FailureKind, now: int)
    ensures var h := FailureHealth(previous, kind, now); h.isolated || now < h.cooldownUntil
  {
    var consecutive := FailureHealth(previous, kind, now).count;
    PowPositive(if consecutive - 1 < 6 then consecutive - 1 else 6);
  }

  lemma {:induction false} PowPositive(n: nat)
    ensures Pow2(n) >= 1
  {
    if n > 0 { PowPositive(n - 1); }
  }

  /** However many reports name one epoch, at most one of them changes health or advances the route. */
  lemma ReportActsAtMostOncePerEpoch(trace: seq<Tenant>, events: seq<Event>, m: nat, n: nat)
    requires IsRun(trace, events) && m < n < |events|
    requires events[m].ReportFailure? && events[n].ReportFailure?
    requires events[m].expected.Some? && events[m].expected == events[n].expected
    ensures !(Accepted(trace[m], events[m]) && Accepted(trace[n], events[n]))
  {
    if Accepted(trace[m], events[m]) {
      AcceptedReportAdvances(trace[m], events[m]);
      EpochFencesRoute(trace, events, m + 1, n);
      FencedRecovery(trace[n], events[n]);
    }
  }

  lemma FencedRecovery(s: Tenant, e: Event)
    requires e.ReportFailure?
    ensures s.r.epoch <= Recovered(s, e.now, e.recovered).r.epoch
  {}

  // ---- the cyclic order ----

  /** Steps forward from `from` to `to` on a circle of `size` positions; from itself is a full turn away. */
  function Distance(from: int, to: int, size: int): int
    requires size > 0
  {
    (to - from - 1) % size
  }

  lemma DistanceCases(from: int, to: int, size: int)
    requires 1 <= from <= size && 1 <= to <= size
    ensures Distance(from, to, size) == if to > from then to - from - 1 else to - from - 1 + size
  {
    if to <= from {
      assert (to - from - 1 + size) % size == (to - from - 1) % size;
    }
  }

  /** The chosen successor is exactly the available account fewest steps ahead on the circle. */
  lemma NextIsCyclicSuccessor(s: Tenant, from: int, except: Id, now: int, r: Id)
    requires Sequenced(s) && 1 <= from <= s.r.counter && r != ""
    ensures IsNext(s, Some(from), except, now, r) <==>
            Candidate(s, except, now, r) && forall c :: Candidate(s, except, now, c) ==>
              Distance(from, s.v.accounts[r].sequence, s.r.counter) <= Distance(from, s.v.accounts[c].sequence, s.r.counter)
  {
    forall c | c in s.v.accounts
      ensures Distance(from, s.v.accounts[c].sequence, s.r.counter) ==
              var to := s.v.accounts[c].sequence; if to > from then to - from - 1 else to - from - 1 + s.r.counter
    {
      DistanceCases(from, s.v.accounts[c].sequence, s.r.counter);
    }
  }

  /** The active account is the available one fewest steps after `from`, or there is none and none is active. */
  ghost predicate CyclicSuccessor(t: Tenant, from: int, except: Id, now: int) {
    && 1 <= from <= t.r.counter
    && if t.r.activeId == "" then forall c :: !Candidate(t, except, now, c)
       else Candidate(t, except, now, t.r.activeId) && forall c :: Candidate(t, except, now, c) ==>
              Distance(from, t.v.accounts[t.r.activeId].sequence, t.r.counter) <= Distance(from, t.v.accounts[c].sequence, t.r.counter)
  }

  /** Every accepted report, in every run, moves the route to the cyclic successor of the failed account. */
  lemma AdvanceIsCyclic(trace: seq<Tenant>, events: seq<Event>, n: nat)
    requires IsRun(trace, events) && trace[0] == EMPTY && n < |events| && Accepted(trace[n], events[n])
    ensures events[n].id in trace[n + 1].v.accounts
    ensures CyclicSuccessor(trace[n + 1], trace[n + 1].v.accounts[events[n].id].sequence, events[n].id, events[n].now)
  {
    var s, e, t := trace[n], events[n], trace[n + 1];
    SequencesStayDistinct(trace, events, n + 1);
    AcceptedReportAdvances(s, e);
    SuccessorOf(s, e);
  }

  lemma SuccessorOf(s: Tenant, e: Event)
    requires Allowed(s, e) && Accepted(s, e) && Sequenced(Next(s, e))
    ensures var t := Next(s, e); t.v == s.v && CyclicSuccessor(t, t.v.accounts[e.id].sequence, e.id, e.now)
  {
    var t := Next(s, e);
    var r := WithFailure(Recovered(s, e.now, e.recovered), e.id, e.kind, e.now);
    assert IsNext(r, Some(r.v.accounts[e.id].sequence), e.id, e.now, e.pick);
    assert forall c :: Candidate(r, e.id, e.now, c) <==> Candidate(t, e.id, e.now, c);
    assert IsNext(t, Some(t.v.accounts[e.id].sequence), e.id, e.now, t.r.activeId);
    if t.r.activeId != "" {
      NextIsCyclicSuccessor(t, t.v.accounts[e.id].sequence, e.id, e.now, t.r.activeId);
    }
  }

  /** And so does deleting the active account: the route moves to its cyclic successor, one epoch later. */
  lemma DeletionIsCyclic(trace: seq<Tenant>, events: seq<Event>, n: nat)
    requires IsRun(trace, events) && trace[0] == EMPTY && n < |events|
    requires events[n].Delete? && events[n].id in trace[n].v.accounts && trace[n].r.activeId == events[n].id
    ensures trace[n + 1].r.epoch == trace[n].r.epoch + 1 && trace[n + 1].r.activeId != events[n].id
    ensures CyclicSuccessor(trace[n + 1], trace[n].v.accounts[events[n].id].sequence, "", events[n].now)
  {
    SequencesStayDistinct(trace, events, n);
    SequencesStayDistinct(trace, events, n + 1);
    DeletionMovesOn(trace[n], events[n]);
  }

  lemma DeletionMovesOn(s: Tenant, e: Event)
    requires Allowed(s, e) && e.Delete? && e.id in s.v.accounts && s.r.activeId == e.id && Sequenced(s) && Sequenced(Next(s, e))
    ensures var t := Next(s, e);
            && t.r.epoch == s.r.epoch + 1 && t.r.activeId != e.id
            && CyclicSuccessor(t, s.v.accounts[e.id].sequence, "", e.now)
  {
    var t, from := Next(s, e), s.v.accounts[e.id].sequence;
    var r := WithoutRow(s, e.id);
    assert forall c :: Candidate(r, "", e.now, c) <==> Candidate(t, "", e.now, c);
    assert IsNext(t, Some(from), "", e.now, t.r.activeId);
    if t.r.activeId != "" { NextIsCyclicSuccessor(t, from, "", e.now, t.r.activeId); }
  }
}

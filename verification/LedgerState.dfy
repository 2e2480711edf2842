/**
 * The mutable ledger that a parse fills in, field by field.  Each method takes the ledger
 * exactly where the corresponding function of ToolLedger or LedgerSnapshot takes its value.
 */
module LedgerState {
  import opened Common
  import opened Decimals
  import opened ToolLedger
  import opened LedgerSnapshot

  class MutableLedger {
    var callsById: map<CallId, Call>
    var completedFingerprints: set<Fingerprint>
    var completedFingerprintCounts: map<Fingerprint, nat>
    var failureSignatures: set<(Fingerprint, Failure)>
    var calls: seq<Call>
    var completed: seq<Evidence>
    var pendingIds: set<CallId>
    var consumedCallIds: set<CallId>
    var issues: seq<Issue>
    const limits: Limits
    var lastFingerprint: Option<Fingerprint>
    var consecutiveFingerprintCount: nat

    ghost predicate Valid()
      reads this
    {
      completedFingerprints == completedFingerprintCounts.Keys
    }

    function State(): Ledger
      reads this
    {
      Ledger(callsById, calls, completed, completedFingerprintCounts, failureSignatures, pendingIds, consumedCallIds,
             issues, limits, lastFingerprint, consecutiveFingerprintCount)
    }

    /** emptyState */
    constructor (limits: Limits)
      ensures Valid() && State() == EmptyLedger(limits)
    {
      callsById, completedFingerprints, completedFingerprintCounts, failureSignatures := map[], {}, map[], {};
      calls, completed, pendingIds, consumedCallIds, issues := [], [], {}, {}, [];
      this.limits := limits;
      lastFingerprint, consecutiveFingerprintCount := None, 0;
    }

    method AddIssue(issue: Issue)
      modifies this`issues
      ensures State() == ToolLedger.AddIssue(old(State()), issue)
    {
      if issue !in issues {
        issues := issues + [issue];
      }
    }

    method RegisterCall(id: Option<CallId>, rawName: Text, arguments: Text, actions: set<Action>) returns (call: Option<Call>)
      requires Valid()
      modifies this
      ensures Valid()
      ensures var name := Trim(rawName); var f := ToolCallFingerprint(name, arguments);
              State() == ToolLedger.RegisterCall(old(State()), id, name, f, actions)
              && (call.Some? ==> id.Some? && call.value == Call(id.value, name, f, actions) && call.value.id in pendingIds)
      ensures call.Some? <==> State().calls != old(State()).calls
    {
      hide Trim, ToolCallFingerprint;
      var name := Trim(rawName);
      if id.None? {
        AddIssue(Issue(MissingCallId, None, None));
        return None;
      }
      if name == [] {
        AddIssue(Issue(MissingToolName, id, None));
        return None;
      }
      if id.value in callsById || id.value in consumedCallIds {
        AddIssue(Issue(DuplicateCallId, id, None));
        return None;
      }
      var f := ToolCallFingerprint(name, arguments);
      call := Some(Call(id.value, name, f, actions));
      CheckRepeat(id.value, f);
      Enter(call.value);
      CheckLimits(id.value, f);
    }

    method Enter(call: Call)
      modifies this`callsById, this`calls, this`pendingIds, this`lastFingerprint, this`consecutiveFingerprintCount
      ensures State() == Entered(old(State()), call)
    {
      callsById := callsById[call.id := call];
      calls := calls + [call];
      pendingIds := pendingIds + {call.id};
      if lastFingerprint == Some(call.fingerprint) {
        consecutiveFingerprintCount := consecutiveFingerprintCount + 1;
      } else {
        lastFingerprint, consecutiveFingerprintCount := Some(call.fingerprint), 1;
      }
    }

    method CheckLimits(id: CallId, f: Fingerprint)
      modifies this`issues
      ensures State() == Limited(old(State()), id, f)
    {
      if consecutiveFingerprintCount > limits.maxConsecutiveFingerprints {
        AddIssue(Issue(ConsecutiveFingerprintLimit, Some(id), Some(f)));
      }
      if |calls| > limits.maxToolRounds {
        AddIssue(Issue(ToolRoundLimit, Some(id), Some(f)));
      }
    }

    method CheckRepeat(id: CallId, f: Fingerprint)
      modifies this`issues
      ensures State() == Reissued(old(State()), id, f)
    {
      if f in completedFingerprintCounts && completedFingerprintCounts[f] >= MAX_COMPLETED_FINGERPRINT_OCCURRENCES {
        AddIssue(Issue(CompletedCallReissued, Some(id), Some(f)));
      } else if PendingWith(State(), f) {
        AddIssue(Issue(DuplicatePendingCall, Some(id), Some(f)));
      }
    }

    method ConsumeResult(id: Option<CallId>, failed: bool, failure: Failure)
      requires Valid()
      modifies this
      ensures Valid() && State() == ToolLedger.ConsumeResult(old(State()), id, failed, failure)
    {
      if id.None? {
        AddIssue(Issue(MissingCallId, None, None));
        return;
      }
      if id.value in consumedCallIds {
        AddIssue(Issue(CallIdAlreadyConsumed, id, None));
        return;
      }
      if id.value !in callsById || id.value !in pendingIds {
        AddIssue(Issue(UnknownCallId, id, None));
        return;
      }
      var call := callsById[id.value];
      if failed {
        NoteFailure(call, failure);
      }
      Complete(call, failed, failure);
    }

    method NoteFailure(call: Call, failure: Failure)
      modifies this`issues, this`failureSignatures
      ensures State() == Failing(old(State()), call, failure)
    {
      if (call.fingerprint, failure) in failureSignatures {
        AddIssue(Issue(RepeatedFailure, Some(call.id), Some(call.fingerprint)));
      }
      failureSignatures := failureSignatures + {(call.fingerprint, failure)};
    }

    method Complete(call: Call, failed: bool, failure: Failure)
      requires Valid()
      modifies this
      ensures Valid() && State() == Completed(old(State()), call, failed, failure)
    {
      var f := call.fingerprint;
      pendingIds := pendingIds - {call.id};
      consumedCallIds := consumedCallIds + {call.id};
      completedFingerprints := completedFingerprints + {f};
      completedFingerprintCounts :=
        completedFingerprintCounts[f := (if f in completedFingerprintCounts then completedFingerprintCounts[f] else 0) + 1];
      completed := completed + [Evidence(call, failed, if failed then Some(failure) else None)];
    }

    method AddOccurrence(index: nat, occurrence: nat, e: Entry, failure: Option<Failure>)
      requires Copy(index, occurrence, e).failure == failure
      modifies this`callsById, this`calls, this`consumedCallIds, this`completed
      ensures State() == AddCopy(old(State()), index, occurrence, e)
    {
      var call := CopyCall(index, occurrence, e);
      callsById := callsById[call.id := call];
      calls := calls + [call];
      consumedCallIds := consumedCallIds + {call.id};
      completed := completed + [Evidence(call, e.failed, failure)];
    }

    /** The copies of one snapshot entry. */
    method AddSnapshot(index: nat, e: Entry)
      requires Valid()
      modifies this
      ensures Valid() && State() == ReloadEntry(old(State()), index, e)
    {
      hide Distinct;
      if e.name == [] || e.fingerprint in completedFingerprints {
        return;
      }
      var completedCount := Copies(e);
      var failures := Distinct(e.failures);
      failureSignatures := failureSignatures + Signatures(e);
      ghost var start := old(State()).(failureSignatures := failureSignatures);
      for occurrence := 0 to completedCount
        invariant Valid() && State() == AddCopies(start, index, e, occurrence)
      {
        AddOccurrence(index, occurrence, e, if occurrence < |failures| then Some(failures[occurrence]) else None);
      }
      completedFingerprints := completedFingerprints + {e.fingerprint};
      completedFingerprintCounts := completedFingerprintCounts[e.fingerprint := completedCount];
      CopiesKeepSignatures(old(State()), start.failureSignatures, index, e, completedCount);
    }

    /** addCompletedSnapshots, on the ledger as emptyState leaves it. */
    method AddCompletedSnapshots(snapshots: seq<Entry>)
      requires Valid() && State() == EmptyLedger(limits)
      modifies this
      ensures Valid() && State() == Reload(snapshots, limits)
    {
      hide ReloadEntry;
      var recent := LastOf(snapshots, HARD_MAX_TOOL_ROUNDS);
      for index := 0 to |recent|
        invariant Valid() && State() == ReloadAll(EmptyLedger(limits), recent[..index])
      {
        assert recent[..index + 1][..index] == recent[..index];
        AddSnapshot(index, recent[index]);
      }
      assert recent[..|recent|] == recent;
    }
  }

  lemma {:induction false} CopiesKeepSignatures(l: Ledger, signatures: set<(Fingerprint, Failure)>, index: nat, e: Entry, k: nat)
    ensures AddCopies(l.(failureSignatures := signatures), index, e, k) == AddCopies(l, index, e, k).(failureSignatures := signatures)
    ensures AddCopies(l, index, e, k).failureSignatures == l.failureSignatures
    ensures AddCopies(l, index, e, k).counts == l.counts
  {
    hide Copy;
    if k > 0 {
      CopiesKeepSignatures(l, signatures, index, e, k - 1);
    }
  }
}

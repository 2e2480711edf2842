/**
 * The guard over proposed tool calls, and what it guarantees of every guarded run:
 * propose, record what was allowed, consume results in any order.
 */
module LedgerGuard {
  import opened Common
  import opened Decimals
  import opened ToolLedger

  datatype Proposal = Proposal(name: Text, arguments: Text, actions: set<Action>)

  datatype Guarded = Guarded(name: Text, fingerprint: Fingerprint, actions: set<Action>)

  datatype Decision = Allowed(calls: seq<Guarded>) | Refused(code: Code, fingerprint: Option<Fingerprint>)

  function Accepted(p: Proposal): Guarded {
    Guarded(Trim(p.name), ToolCallFingerprint(Trim(p.name), p.arguments), p.actions)
  }

  // ---- what the guard decides ----

  predicate IsLocal(code: Code) {
    code == RepeatedFailure || code == ConsecutiveFingerprintLimit
  }

  predicate FailedBefore(l: Ledger, f: Fingerprint) {
    exists i :: 0 <= i < |l.issues| && l.issues[i].code == RepeatedFailure && l.issues[i].fingerprint == Some(f)
  }

  predicate PendingFingerprint(l: Ledger, f: Fingerprint) {
    exists i :: 0 <= i < |Pending(l)| && Pending(l)[i].fingerprint == f
  }

  /** How often f would stand at the end of the call list, the earlier proposals included. */
  function RunAfter(calls: seq<Call>, earlier: seq<Guarded>, f: Fingerprint): nat {
    if earlier == [] then TailRun(calls, f)
    else if earlier[|earlier| - 1].fingerprint != f then 0
    else 1 + RunAfter(calls, earlier[..|earlier| - 1], f)
  }

  predicate Among(earlier: seq<Guarded>, f: Fingerprint) {
    exists i :: 0 <= i < |earlier| && earlier[i].fingerprint == f
  }

  /** Why one proposal is refused after the earlier ones were accepted; None if it is not. */
  function Objection(l: Ledger, earlier: seq<Guarded>, g: Guarded): (r: Option<Decision>)
    ensures r.Some? ==> r.value.Refused?
  {
    var f := g.fingerprint;
    if g.name == [] then Some(Refused(MissingToolName, None))
    else if FailedBefore(l, f) then Some(Refused(RepeatedFailure, Some(f)))
    else if CompletedCount(l.completed, f) >= MAX_COMPLETED_FINGERPRINT_OCCURRENCES then Some(Refused(CompletedCallReissued, Some(f)))
    else if PendingFingerprint(l, f) || Among(earlier, f) then Some(Refused(DuplicatePendingCall, Some(f)))
    else if RunAfter(l.calls, earlier, f) + 1 > l.limits.maxConsecutiveFingerprints then Some(Refused(ConsecutiveFingerprintLimit, Some(f)))
    else None
  }

  /** The first objection decides. */
  function DecideFrom(l: Ledger, calls: seq<Proposal>, earlier: seq<Guarded>): Decision
    requires |earlier| <= |calls|
    decreases |calls| - |earlier|
  {
    if |earlier| == |calls| then Allowed(earlier)
    else
      var g := Accepted(calls[|earlier|]);
      var objection := Objection(l, earlier, g);
      if objection.Some? then objection.value else DecideFrom(l, calls, earlier + [g])
  }

  /** The first issue that blocks every proposal. */
  function GlobalIssue(issues: seq<Issue>): Option<Issue> {
    if issues == [] then None
    else if !IsLocal(issues[0].code) then Some(issues[0])
    else GlobalIssue(issues[1..])
  }

  function Decide(l: Ledger, calls: seq<Proposal>): Decision {
    var issue := GlobalIssue(l.issues);
    if issue.Some? then Refused(issue.value.code, issue.value.fingerprint)
    else if Pending(l) != [] then Refused(PendingToolResult, None)
    else if |l.calls| + |calls| > l.limits.maxToolRounds then Refused(ToolRoundLimit, None)
    else DecideFrom(l, calls, [])
  }

  // ---- the guard ----

  method FindGlobalIssue(issues: seq<Issue>) returns (r: Option<Issue>)
    ensures r == GlobalIssue(issues)
  {
    var i := 0;
    while i < |issues|
      invariant 0 <= i <= |issues|
      invariant GlobalIssue(issues) == GlobalIssue(issues[i..])
    {
      if !IsLocal(issues[i].code) {
        return Some(issues[i]);
      }
      assert issues[i..][1..] == issues[i + 1..];
      i := i + 1;
    }
    return None;
  }

  method CountCompleted(completed: seq<Evidence>) returns (counts: map<Fingerprint, nat>)
    ensures forall f :: CompletedCount(completed, f) == if f in counts then counts[f] else 0
  {
    counts := map[];
    var i := 0;
    while i < |completed|
      invariant 0 <= i <= |completed|
      invariant forall f :: CompletedCount(completed[..i], f) == if f in counts then counts[f] else 0
    {
      var f := completed[i].call.fingerprint;
      assert completed[..i + 1][..i] == completed[..i];
      counts := counts[f := (if f in counts then counts[f] else 0) + 1];
      i := i + 1;
    }
    assert completed[..i] == completed;
  }

  method CountTail(calls: seq<Call>, f: Fingerprint) returns (n: nat)
    ensures n == TailRun(calls, f)
  {
    n := 0;
    assert calls[..|calls|] == calls;
    while n < |calls| && calls[|calls| - 1 - n].fingerprint == f
      invariant n <= |calls| && TailRun(calls, f) == n + TailRun(calls[..|calls| - n], f)
    {
      assert calls[..|calls| - n][..|calls| - n - 1] == calls[..|calls| - n - 1];
      n := n + 1;
    }
  }

  /** guardProposedToolCalls: running maps and counters, against the direct reading above. */
  method GuardProposedToolCalls(calls: seq<Proposal>, l: Ledger) returns (d: Decision)
    ensures d == Decide(l, calls)
  {
    hide TailRun, CompletedCount, ToolCallFingerprint, Trim, Objection, Pending;
    var issue := FindGlobalIssue(l.issues);
    if issue.Some? {
      return Refused(issue.value.code, issue.value.fingerprint);
    }
    var pending := Pending(l);
    if pending != [] {
      return Refused(PendingToolResult, None);
    }
    if |l.calls| + |calls| > l.limits.maxToolRounds {
      return Refused(ToolRoundLimit, None);
    }
    var completed := CountCompleted(l.completed);
    var proposed: set<Fingerprint> := {};
    var guarded: seq<Guarded> := [];
    var last: Option<Fingerprint> := if l.calls == [] then None else Some(l.calls[|l.calls| - 1].fingerprint);
    var consecutive := 0;
    if last.Some? {
      consecutive := CountTail(l.calls, last.value);
    }
    InitialRun(l.calls);
    while |guarded| < |calls|
      invariant |guarded| <= |calls|
      invariant DecideFrom(l, calls, []) == DecideFrom(l, calls, guarded)
      invariant forall f :: f in proposed <==> Among(guarded, f)
      invariant forall f :: RunAfter(l.calls, guarded, f) == if last == Some(f) then consecutive else 0
      decreases |calls| - |guarded|
    {
      var g := Accepted(calls[|guarded|]);
      var f := g.fingerprint;
      ObjectionCases(l, guarded, g);
      if g.name == [] {
        return Refused(MissingToolName, None);
      }
      if FailedBefore(l, f) {
        return Refused(RepeatedFailure, Some(f));
      }
      if f in completed && completed[f] >= MAX_COMPLETED_FINGERPRINT_OCCURRENCES {
        return Refused(CompletedCallReissued, Some(f));
      }
      if f in proposed {
        return Refused(DuplicatePendingCall, Some(f));
      }
      consecutive := if last == Some(f) then consecutive + 1 else 1;
      last := Some(f);
      if consecutive > l.limits.maxConsecutiveFingerprints {
        return Refused(ConsecutiveFingerprintLimit, Some(f));
      }
      AppendedRun(l.calls, guarded, g);
      AmongAppended(guarded, g);
      proposed, guarded := proposed + {f}, guarded + [g];
    }
    return Allowed(guarded);
  }

  lemma InitialRun(calls: seq<Call>)
    ensures forall f :: RunAfter(calls, [], f) == TailRun(calls, f)
    ensures forall f :: (calls == [] || calls[|calls| - 1].fingerprint != f) ==> RunAfter(calls, [], f) == 0
  {}

  lemma AppendedRun(calls: seq<Call>, earlier: seq<Guarded>, g: Guarded)
    ensures forall f :: RunAfter(calls, earlier + [g], f) == if g.fingerprint == f then RunAfter(calls, earlier, f) + 1 else 0
  {
    assert (earlier + [g])[..|earlier|] == earlier;
  }

  lemma AmongAppended(earlier: seq<Guarded>, g: Guarded)
    ensures forall f :: Among(earlier + [g], f) <==> Among(earlier, f) || g.fingerprint == f
  {
    forall f | Among(earlier, f) || g.fingerprint == f ensures Among(earlier + [g], f) {
      if g.fingerprint == f {
        assert (earlier + [g])[|earlier|].fingerprint == f;
      } else {
        var i :| 0 <= i < |earlier| && earlier[i].fingerprint == f;
        assert (earlier + [g])[i].fingerprint == f;
      }
    }
  }

  lemma ObjectionCases(l: Ledger, earlier: seq<Guarded>, g: Guarded)
    requires Pending(l) == []
    ensures var f := g.fingerprint;
            Objection(l, earlier, g) ==
            if g.name == [] then Some(Refused(MissingToolName, None))
            else if FailedBefore(l, f) then Some(Refused(RepeatedFailure, Some(f)))
            else if CompletedCount(l.completed, f) >= MAX_COMPLETED_FINGERPRINT_OCCURRENCES then Some(Refused(CompletedCallReissued, Some(f)))
            else if Among(earlier, f) then Some(Refused(DuplicatePendingCall, Some(f)))
            else if RunAfter(l.calls, earlier, f) + 1 > l.limits.maxConsecutiveFingerprints then Some(Refused(ConsecutiveFingerprintLimit, Some(f)))
            else None
  {}

  // ---- recording what was allowed ----

  function RegisterAll(l: Ledger, calls: seq<Guarded>, ids: seq<CallId>): Ledger
    requires |ids| == |calls|
  {
    if calls == [] then l
    else
      var n := |calls| - 1;
      RegisterCall(RegisterAll(l, calls[..n], ids[..n]), Some(ids[n]), calls[n].name, calls[n].fingerprint, calls[n].actions)
  }

  /** Ids never seen by the ledger, all different. */
  predicate NewIds(l: Ledger, ids: seq<CallId>) {
    && (forall i :: 0 <= i < |ids| ==> ids[i] !in l.callsById)
    && (forall i, j :: 0 <= i < j < |ids| ==> ids[i] != ids[j])
  }

  /** Everything the guard accepted, taken one by one. */
  predicate AllUnobjected(l: Ledger, calls: seq<Guarded>) {
    forall i :: 0 <= i < |calls| ==> Objection(l, calls[..i], calls[i]) == None
  }

  lemma {:induction false} DecideFromAllowed(l: Ledger, calls: seq<Proposal>, earlier: seq<Guarded>)
    requires |earlier| <= |calls| && AllUnobjected(l, earlier) && DecideFrom(l, calls, earlier).Allowed?
    ensures var r := DecideFrom(l, calls, earlier).calls; |r| == |calls| && AllUnobjected(l, r)
    decreases |calls| - |earlier|
  {
    hide Objection, Accepted;
    if |earlier| < |calls| {
      var g := Accepted(calls[|earlier|]);
      var next := earlier + [g];
      assert Objection(l, earlier, g) == None;
      forall i | 0 <= i < |next| ensures Objection(l, next[..i], next[i]) == None {
        assert next[..i] == earlier[..i];
        if i == |earlier| { assert earlier[..i] == earlier; }
      }
      DecideFromAllowed(l, calls, next);
    }
  }

  /** What holds after the accepted calls were recorded on top of l. */
  ghost predicate Recorded(l: Ledger, calls: seq<Guarded>, ids: seq<CallId>, m: Ledger)
    requires |ids| == |calls|
  {
    && Inv(m)
    && m.issues == l.issues && m.limits == l.limits && m.counts == l.counts && m.completed == l.completed
    && |m.calls| == |l.calls| + |calls|
    && m.calls == l.calls + Entries(calls, ids)
    && m.pendingIds == Elements(ids)
    && (forall id :: id in m.callsById <==> id in l.callsById || id in ids)
    && (forall f :: PendingWith(m, f) <==> Among(calls, f))
    && (forall f :: TailRun(m.calls, f) == RunAfter(l.calls, calls, f))
  }

  function Elements(ids: seq<CallId>): set<CallId> {
    set id | id in ids
  }

  function Entries(calls: seq<Guarded>, ids: seq<CallId>): (r: seq<Call>)
    requires |ids| == |calls|
    ensures |r| == |calls|
  {
    seq(|calls|, i requires 0 <= i < |calls| => Call(ids[i], calls[i].name, calls[i].fingerprint, calls[i].actions))
  }

  lemma NothingRecorded(l: Ledger)
    requires Inv(l) && Pending(l) == []
    ensures Recorded(l, [], [], l)
  {
    hide TailRun, CompletedCount;
    NonePending(l);
  }

  lemma NonePending(l: Ledger)
    requires Inv(l)
    ensures Pending(l) == [] <==> l.pendingIds == {}
  {
    hide TailRun, CompletedCount, PendingOf;
    PendingIsFilter(l.calls, l.pendingIds);
    if Pending(l) != [] {
      assert Pending(l)[0] in Pending(l);
    }
    if id :| id in l.pendingIds {
      var c := l.callsById[id];
      assert c in l.calls && c.id == id;
      assert c in Pending(l);
    }
  }

  lemma QuietRegister(m: Ledger, id: CallId, g: Guarded)
    requires Inv(m) && g.name != [] && id !in m.callsById
    requires CompletedCount(m.completed, g.fingerprint) < MAX_COMPLETED_FINGERPRINT_OCCURRENCES
    requires !PendingWith(m, g.fingerprint)
    requires TailRun(m.calls, g.fingerprint) + 1 <= m.limits.maxConsecutiveFingerprints
    requires |m.calls| + 1 <= m.limits.maxToolRounds
    ensures RegisterCall(m, Some(id), g.name, g.fingerprint, g.actions) == Entered(m, Call(id, g.name, g.fingerprint, g.actions))
  {
    hide TailRun, CompletedCount, CallsIndexed, ResultsIndexed, PendingWith;
    assert id !in m.consumedIds by { KnownIds(m); }
  }

  lemma KnownIds(m: Ledger)
    requires Inv(m)
    ensures m.consumedIds <= m.callsById.Keys
  {}

  lemma OneMoreRecorded(l: Ledger, calls: seq<Guarded>, ids: seq<CallId>, m: Ledger, id: CallId, g: Guarded)
    requires |ids| == |calls| && Recorded(l, calls, ids, m) && id !in m.callsById && g.name != []
    ensures Recorded(l, calls + [g], ids + [id], Entered(m, Call(id, g.name, g.fingerprint, g.actions)))
  {
    hide TailRun, RunAfter, CompletedCount, Inv, Among;
    var call := Call(id, g.name, g.fingerprint, g.actions);
    var r := Entered(m, call);
    EnteredKeepsInv(m, call);
    AppendedRun(l.calls, calls, g);
    AmongAppended(calls, g);
    assert Entries(calls + [g], ids + [id]) == Entries(calls, ids) + [call];
    forall f ensures TailRun(r.calls, f) == RunAfter(l.calls, calls + [g], f) {
      TailRunAppend(m.calls, call, f);
    }
    forall f ensures PendingWith(r, f) <==> Among(calls + [g], f) {
      PendingAfterEntry(m, call, f);
    }
  }

  lemma PendingAfterEntry(m: Ledger, call: Call, f: Fingerprint)
    requires Inv(m) && call.id !in m.callsById
    ensures PendingWith(Entered(m, call), f) <==> PendingWith(m, f) || call.fingerprint == f
  {
    hide TailRun, CompletedCount, ResultsIndexed;
    var r := Entered(m, call);
    if PendingWith(m, f) {
      var id :| id in m.pendingIds && id in m.callsById && m.callsById[id].fingerprint == f;
      assert id in r.pendingIds && r.callsById[id].fingerprint == f;
    }
    if call.fingerprint == f {
      assert call.id in r.pendingIds && r.callsById[call.id].fingerprint == f;
    }
  }

  lemma AllButLast(l: Ledger, calls: seq<Guarded>, ids: seq<CallId>)
    requires calls != [] && |ids| == |calls| && NewIds(l, ids) && AllUnobjected(l, calls)
    ensures var n := |calls| - 1;
            NewIds(l, ids[..n]) && AllUnobjected(l, calls[..n]) && Objection(l, calls[..n], calls[n]) == None
            && ids[n] !in l.callsById && ids[n] !in ids[..n]
  {
    hide Objection;
    var n := |calls| - 1;
    forall i | 0 <= i < n ensures Objection(l, calls[..n][..i], calls[..n][i]) == None {
      assert calls[..n][..i] == calls[..i];
    }
  }

  lemma {:induction false} UnobjectedRecords(l: Ledger, calls: seq<Guarded>, ids: seq<CallId>)
    requires Inv(l) && Pending(l) == [] && |ids| == |calls| && NewIds(l, ids) && AllUnobjected(l, calls)
    requires |l.calls| + |calls| <= l.limits.maxToolRounds
    ensures Recorded(l, calls, ids, RegisterAll(l, calls, ids))
    decreases |calls|
  {
    hide Recorded, Inv, Objection, Pending, RegisterCall, AllUnobjected, NewIds;
    if calls == [] {
      NothingRecorded(l);
    } else {
      var n := |calls| - 1;
      AllButLast(l, calls, ids);
      UnobjectedRecords(l, calls[..n], ids[..n]);
      assert calls == calls[..n] + [calls[n]] && ids == ids[..n] + [ids[n]];
      RecordNext(l, calls[..n], ids[..n], RegisterAll(l, calls[..n], ids[..n]), ids[n], calls[n]);
    }
  }

  lemma RecordNext(l: Ledger, calls: seq<Guarded>, ids: seq<CallId>, m: Ledger, id: CallId, g: Guarded)
    requires |ids| == |calls| && Recorded(l, calls, ids, m) && Pending(l) == []
    requires id !in l.callsById && id !in ids && Objection(l, calls, g) == None
    requires |l.calls| + |calls| + 1 <= l.limits.maxToolRounds
    ensures Recorded(l, calls + [g], ids + [id], RegisterCall(m, Some(id), g.name, g.fingerprint, g.actions))
  {
    hide TailRun, RunAfter, CompletedCount, Inv, Among, RegisterCall, PendingWith, Entered, Entries, FailedBefore;
    QuietRegister(m, id, g);
    OneMoreRecorded(l, calls, ids, m, id, g);
  }

  /** The guard never allows what registration would object to. */
  lemma AllowedRaisesNoIssue(l: Ledger, calls: seq<Proposal>, ids: seq<CallId>)
    requires Inv(l) && Decide(l, calls).Allowed? && |ids| == |calls| && NewIds(l, ids)
    ensures |Decide(l, calls).calls| == |calls|
    ensures Recorded(l, Decide(l, calls).calls, ids, RegisterAll(l, Decide(l, calls).calls, ids))
  {
    hide Inv, Recorded, Objection;
    DecideFromAllowed(l, calls, []);
    UnobjectedRecords(l, Decide(l, calls).calls, ids);
  }

  // ---- whole guarded runs ----

  /**
   * One step of a conversation: the model proposes calls and, if the guard allows them, the
   * client returns them under new ids; or a result arrives for some id.
   */
  datatype Event =
    | Propose(calls: seq<Proposal>, ids: seq<CallId>)
    | Result(id: Option<CallId>, failed: bool, failure: Failure)

  predicate Possible(l: Ledger, e: Event) {
    e.Propose? ==> |e.ids| == |e.calls| && NewIds(l, e.ids)
  }

  function Step(l: Ledger, e: Event): Ledger
    requires Possible(l, e)
  {
    match e
    case Result(id, failed, failure) => ConsumeResult(l, id, failed, failure)
    case Propose(calls, ids) =>
      var d := Decide(l, calls);
      if d.Allowed? && |d.calls| == |ids| then RegisterAll(l, d.calls, ids) else l
  }

  ghost predicate IsRun(trace: seq<Ledger>, events: seq<Event>) {
    && |trace| == |events| + 1
    && forall i :: 0 <= i < |events| ==> Possible(trace[i], events[i]) && trace[i + 1] == Step(trace[i], events[i])
  }

  /** Conservation: every call of a fingerprint is either completed or pending. */
  ghost predicate Balanced(l: Ledger) {
    forall f :: CallCount(l.calls, f) == CompletedCount(l.completed, f) + CallCount(Pending(l), f)
  }

  /** No fingerprint stands more often in a row than the limit, anywhere in the call list. */
  ghost predicate NoLongRun(calls: seq<Call>, limit: nat) {
    forall i, f :: 0 <= i <= |calls| ==> TailRun(calls[..i], f) <= limit
  }

  ghost predicate NoFrequentCall(calls: seq<Call>) {
    forall f :: CallCount(calls, f) <= MAX_COMPLETED_FINGERPRINT_OCCURRENCES
  }

  ghost predicate WithinLimits(l: Ledger) {
    && |l.calls| <= l.limits.maxToolRounds
    && NoLongRun(l.calls, l.limits.maxConsecutiveFingerprints)
    && NoFrequentCall(l.calls)
  }

  lemma {:induction false} PendingAdds(calls: seq<Call>, ids: set<CallId>, c: Call)
    requires forall i :: 0 <= i < |calls| ==> calls[i].id != c.id
    ensures PendingOf(calls + [c], ids + {c.id}) == PendingOf(calls, ids) + [c]
  {
    assert (calls + [c])[..|calls|] == calls;
    PendingIgnores(calls, ids, c.id);
  }

  lemma {:induction false} PendingIgnores(calls: seq<Call>, ids: set<CallId>, id: CallId)
    requires forall i :: 0 <= i < |calls| ==> calls[i].id != id
    ensures PendingOf(calls, ids + {id}) == PendingOf(calls, ids)
    ensures PendingOf(calls, ids - {id}) == PendingOf(calls, ids)
  {
    if calls != [] {
      PendingIgnores(calls[..|calls| - 1], ids, id);
    }
  }

  lemma PendingCountUnfolds(calls: seq<Call>, ids: set<CallId>, f: Fingerprint)
    requires calls != []
    ensures var n := |calls| - 1;
            CallCount(PendingOf(calls, ids), f)
            == CallCount(PendingOf(calls[..n], ids), f) + if calls[n].id in ids && calls[n].fingerprint == f then 1 else 0
  {
    hide CallCount;
    var front := PendingOf(calls[..|calls| - 1], ids);
    CallCountAppend(front, calls[|calls| - 1], f);
    assert front + [] == front;
  }

  /** Consuming one pending call takes one of its fingerprint out of the pending list. */
  lemma {:induction false} PendingDrops(calls: seq<Call>, ids: set<CallId>, k: nat, f: Fingerprint)
    requires k < |calls| && calls[k].id in ids
    requires forall i, j :: 0 <= i < j < |calls| ==> calls[i].id != calls[j].id
    ensures CallCount(PendingOf(calls, ids), f)
            == CallCount(PendingOf(calls, ids - {calls[k].id}), f) + if calls[k].fingerprint == f then 1 else 0
  {
    hide CallCount, PendingOf;
    var n := |calls| - 1;
    var front, id := calls[..n], calls[k].id;
    PendingCountUnfolds(calls, ids, f);
    PendingCountUnfolds(calls, ids - {id}, f);
    if k == n {
      PendingIgnores(front, ids, id);
    } else {
      assert front[k] == calls[k];
      PendingDrops(front, ids, k, f);
    }
  }

  lemma EnteredKeepsBalance(l: Ledger, call: Call)
    requires Inv(l) && Balanced(l) && call.id !in l.callsById
    ensures Balanced(Entered(l, call))
  {
    hide CallCount, CompletedCount, TailRun, PendingOf;
    PendingAdds(l.calls, l.pendingIds, call);
    var m := Entered(l, call);
    forall f ensures CallCount(m.calls, f) == CompletedCount(m.completed, f) + CallCount(Pending(m), f) {
      CallCountAppend(l.calls, call, f);
      CallCountAppend(Pending(l), call, f);
    }
  }

  lemma CompletedKeepsBalance(l: Ledger, k: nat, failed: bool, failure: Failure)
    requires CallsIndexed(l) && Balanced(l) && k < |l.calls| && l.calls[k].id in l.pendingIds
    ensures Balanced(Completed(l, l.calls[k], failed, failure))
  {
    hide CallCount, CompletedCount, PendingOf;
    var m := Completed(l, l.calls[k], failed, failure);
    forall f ensures CallCount(m.calls, f) == CompletedCount(m.completed, f) + CallCount(Pending(m), f) {
      PendingDrops(l.calls, l.pendingIds, k, f);
      CompletedCountAppend(l.completed, m.completed[|l.completed|], f);
    }
  }

  lemma IssuesKeepBalance(l: Ledger, m: Ledger)
    requires Balanced(l) && m == l.(issues := m.issues, failureSignatures := m.failureSignatures)
    ensures Balanced(m)
  {}

  lemma ConsumeKeepsBalance(l: Ledger, id: Option<CallId>, failed: bool, failure: Failure)
    requires Inv(l) && Balanced(l)
    ensures var m := ConsumeResult(l, id, failed, failure); Balanced(m) && m.calls == l.calls && m.limits == l.limits
  {
    hide Balanced, CompletedCount, TailRun, Completed;
    if id.Some? && id.value !in l.consumedIds && id.value in l.callsById && id.value in l.pendingIds {
      var call := l.callsById[id.value];
      var k :| 0 <= k < |l.calls| && l.calls[k] == call;
      var m := if failed then Failing(l, call, failure) else l;
      IssuesKeepBalance(l, m);
      CompletedKeepsBalance(m, k, failed, failure);
      CompletedFrame(m, call, failed, failure);
    } else {
      IssuesKeepBalance(l, ConsumeResult(l, id, failed, failure));
    }
  }

  lemma CompletedFrame(l: Ledger, call: Call, failed: bool, failure: Failure)
    ensures var m := Completed(l, call, failed, failure); m.calls == l.calls && m.limits == l.limits
  {}

  lemma {:induction false} NoneCounted(calls: seq<Call>, f: Fingerprint)
    requires forall c :: c in calls ==> c.fingerprint != f
    ensures CallCount(calls, f) == 0
  {
    if calls != [] {
      assert calls[|calls| - 1] in calls;
      NoneCounted(calls[..|calls| - 1], f);
    }
  }

  lemma NotPendingCounted(m: Ledger, f: Fingerprint)
    requires Inv(m) && !PendingWith(m, f)
    ensures CallCount(Pending(m), f) == 0
  {
    hide CallCount, CompletedCount, TailRun, PendingOf;
    PendingIsFilter(m.calls, m.pendingIds);
    forall c | c in Pending(m) ensures c.fingerprint != f {
      assert c in m.calls && c.id in m.pendingIds && m.callsById[c.id] == c;
    }
    NoneCounted(Pending(m), f);
  }

  lemma EnteredStaysWithin(m: Ledger, call: Call)
    requires Inv(m) && Balanced(m) && WithinLimits(m) && call.id !in m.callsById
    requires CompletedCount(m.completed, call.fingerprint) < MAX_COMPLETED_FINGERPRINT_OCCURRENCES
    requires !PendingWith(m, call.fingerprint)
    requires TailRun(m.calls, call.fingerprint) + 1 <= m.limits.maxConsecutiveFingerprints
    requires |m.calls| + 1 <= m.limits.maxToolRounds
    ensures WithinLimits(Entered(m, call))
  {
    hide Inv, CallCount, CompletedCount, TailRun, Pending, PendingWith;
    var r := Entered(m, call);
    NotPendingCounted(m, call.fingerprint);
    forall f ensures CallCount(r.calls, f) <= MAX_COMPLETED_FINGERPRINT_OCCURRENCES {
      CallCountAppend(m.calls, call, f);
    }
    forall i, f | 0 <= i <= |r.calls| ensures TailRun(r.calls[..i], f) <= m.limits.maxConsecutiveFingerprints {
      if i <= |m.calls| {
        assert r.calls[..i] == m.calls[..i];
      } else {
        assert r.calls[..i] == m.calls + [call];
        TailRunAppend(m.calls, call, f);
      }
    }
  }

  lemma {:induction false} RecordedStaysWithin(l: Ledger, calls: seq<Guarded>, ids: seq<CallId>)
    requires Inv(l) && Balanced(l) && WithinLimits(l)
    requires Pending(l) == [] && |ids| == |calls| && NewIds(l, ids) && AllUnobjected(l, calls)
    requires |l.calls| + |calls| <= l.limits.maxToolRounds
    ensures Balanced(RegisterAll(l, calls, ids)) && WithinLimits(RegisterAll(l, calls, ids))
    decreases |calls|
  {
    hide Inv, Balanced, WithinLimits, Objection, Pending, RegisterCall, Among, PendingWith, TailRun, RunAfter, CompletedCount, FailedBefore, NewIds, AllUnobjected, Recorded;
    if calls != [] {
      var n := |calls| - 1;
      AllButLast(l, calls, ids);
      RecordedStaysWithin(l, calls[..n], ids[..n]);
      UnobjectedRecords(l, calls[..n], ids[..n]);
      StayWithinNext(l, calls[..n], ids[..n], RegisterAll(l, calls[..n], ids[..n]), ids[n], calls[n]);
    }
  }

  lemma StayWithinNext(l: Ledger, calls: seq<Guarded>, ids: seq<CallId>, m: Ledger, id: CallId, g: Guarded)
    requires |ids| == |calls| && Recorded(l, calls, ids, m) && Balanced(m) && WithinLimits(m)
    requires id !in l.callsById && id !in ids && Objection(l, calls, g) == None
    requires |l.calls| + |calls| + 1 <= l.limits.maxToolRounds
    ensures var r := RegisterCall(m, Some(id), g.name, g.fingerprint, g.actions); Balanced(r) && WithinLimits(r)
  {
    hide Inv, Balanced, WithinLimits, Objection, Pending, RegisterCall, Among, PendingWith, TailRun, RunAfter, CompletedCount, FailedBefore, Entered, Entries;
    var call := Call(id, g.name, g.fingerprint, g.actions);
    UnobjectedFacts(l, calls, g);
    QuietRegister(m, id, g);
    EnteredKeepsBalance(m, call);
    EnteredStaysWithin(m, call);
  }

  lemma UnobjectedFacts(l: Ledger, earlier: seq<Guarded>, g: Guarded)
    requires Objection(l, earlier, g) == None
    ensures g.name != [] && !FailedBefore(l, g.fingerprint) && !Among(earlier, g.fingerprint)
    ensures CompletedCount(l.completed, g.fingerprint) < MAX_COMPLETED_FINGERPRINT_OCCURRENCES
    ensures RunAfter(l.calls, earlier, g.fingerprint) + 1 <= l.limits.maxConsecutiveFingerprints
  {}

  /** What every state of a guarded run satisfies. */
  ghost predicate Sound(l: Ledger, limits: Limits) {
    Inv(l) && Balanced(l) && WithinLimits(l) && l.limits == limits
  }

  lemma StepStaysSound(l: Ledger, e: Event)
    requires Sound(l, l.limits) && Possible(l, e)
    ensures Sound(Step(l, e), l.limits)
  {
    hide Inv, Balanced, WithinLimits, ConsumeResult, Recorded, Objection, Pending;
    match e
    case Result(id, failed, failure) =>
      ConsumeKeepsInv(l, id, failed, failure);
      ConsumeKeepsBalance(l, id, failed, failure);
      SameCallsWithin(l, Step(l, e));
    case Propose(calls, ids) =>
      var d := Decide(l, calls);
      if d.Allowed? && |d.calls| == |ids| {
        DecideFromAllowed(l, calls, []);
        RecordedStaysWithin(l, d.calls, ids);
        AllowedRaisesNoIssue(l, calls, ids);
        RecordedFacts(l, d.calls, ids, RegisterAll(l, d.calls, ids));
      }
  }

  lemma SameCallsWithin(l: Ledger, m: Ledger)
    requires WithinLimits(l) && m.calls == l.calls && m.limits == l.limits
    ensures WithinLimits(m)
  {}

  lemma RecordedFacts(l: Ledger, calls: seq<Guarded>, ids: seq<CallId>, m: Ledger)
    requires |ids| == |calls| && Recorded(l, calls, ids, m)
    ensures Inv(m) && m.limits == l.limits && m.issues == l.issues && m.calls == l.calls + Entries(calls, ids)
  {}

  lemma EmptySound(limits: Limits)
    ensures Sound(EmptyLedger(limits), limits)
  {
    EmptyInv(limits);
  }

  /** Safety of every guarded run from an empty ledger, at every point of it. */
  lemma {:induction false} GuardedRunsStaySound(trace: seq<Ledger>, events: seq<Event>, limits: Limits, n: nat)
    requires IsRun(trace, events) && n < |trace| && trace[0] == EmptyLedger(limits)
    ensures Sound(trace[n], limits)
  {
    hide Sound, Step, EmptyLedger;
    if n == 0 {
      EmptySound(limits);
    } else {
      GuardedRunsStaySound(trace, events, limits, n - 1);
      assert trace[n - 1 + 1] == Step(trace[n - 1], events[n - 1]);
      LimitsOfSound(trace[n - 1], limits);
      StepStaysSound(trace[n - 1], events[n - 1]);
    }
  }

  lemma LimitsOfSound(l: Ledger, limits: Limits)
    requires Sound(l, limits)
    ensures l.limits == limits
  {}

  /** With the default limits: at most 32 calls, none more than 8 times, none three times in a row. */
  lemma DefaultRunsAreBounded(trace: seq<Ledger>, events: seq<Event>, n: nat)
    requires IsRun(trace, events) && n < |trace| && trace[0] == EmptyLedger(DEFAULT_LIMITS)
    ensures |trace[n].calls| <= 32
    ensures forall f :: CallCount(trace[n].calls, f) <= 8
    ensures forall i :: 0 <= i && i + 2 < |trace[n].calls| ==>
              !(trace[n].calls[i].fingerprint == trace[n].calls[i + 1].fingerprint == trace[n].calls[i + 2].fingerprint)
  {
    hide Inv, Balanced, IsRun, CallCount, TailRun;
    GuardedRunsStaySound(trace, events, DEFAULT_LIMITS, n);
    var calls := trace[n].calls;
    forall i | 0 <= i && i + 2 < |calls| ensures !(calls[i].fingerprint == calls[i + 1].fingerprint == calls[i + 2].fingerprint) {
      ThreeInARow(calls, i);
      assert TailRun(calls[..i + 3], calls[i].fingerprint) <= 2;
    }
  }

  lemma ThreeInARow(calls: seq<Call>, i: nat)
    requires i + 2 < |calls|
    ensures calls[i].fingerprint == calls[i + 1].fingerprint == calls[i + 2].fingerprint
            ==> TailRun(calls[..i + 3], calls[i].fingerprint) >= 3
  {
    hide TailRun;
    var f := calls[i].fingerprint;
    assert calls[..i + 1] == calls[..i] + [calls[i]];
    assert calls[..i + 2] == calls[..i + 1] + [calls[i + 1]];
    assert calls[..i + 3] == calls[..i + 2] + [calls[i + 2]];
    TailRunAppend(calls[..i], calls[i], f);
    TailRunAppend(calls[..i + 1], calls[i + 1], f);
    TailRunAppend(calls[..i + 2], calls[i + 2], f);
  }

  // ---- a repeated failure is never approved again ----

  lemma ConsumeKeepsIssues(l: Ledger, id: Option<CallId>, failed: bool, failure: Failure, f: Fingerprint)
    requires FailedBefore(l, f)
    ensures FailedBefore(ConsumeResult(l, id, failed, failure), f)
  {
    var m := ConsumeResult(l, id, failed, failure);
    var i :| 0 <= i < |l.issues| && l.issues[i].code == RepeatedFailure && l.issues[i].fingerprint == Some(f);
    assert m.issues[i] == l.issues[i];
  }

  lemma {:induction false} EntriesCount(calls: seq<Call>, more: seq<Call>, f: Fingerprint)
    requires forall c :: c in more ==> c.fingerprint != f
    ensures CallCount(calls + more, f) == CallCount(calls, f)
  {
    if more == [] {
      assert calls + more == calls;
    } else {
      var n := |more| - 1;
      assert more[n] in more;
      EntriesCount(calls, more[..n], f);
      CallCountAppend(calls + more[..n], more[n], f);
      assert calls + more == calls + more[..n] + [more[n]];
    }
  }

  lemma StepAfterFailure(l: Ledger, e: Event, f: Fingerprint)
    requires Sound(l, l.limits) && Possible(l, e) && FailedBefore(l, f)
    ensures FailedBefore(Step(l, e), f) && CallCount(Step(l, e).calls, f) == CallCount(l.calls, f)
  {
    hide Inv, Balanced, WithinLimits, ConsumeResult, Recorded, Objection, Pending, CallCount;
    match e
    case Result(id, failed, failure) =>
      ConsumeKeepsIssues(l, id, failed, failure, f);
      ConsumeKeepsBalance(l, id, failed, failure);
    case Propose(calls, ids) =>
      var d := Decide(l, calls);
      if d.Allowed? && |d.calls| == |ids| {
        AllowedRaisesNoIssue(l, calls, ids);
        RecordedFacts(l, d.calls, ids, RegisterAll(l, d.calls, ids));
        DecideFromAllowed(l, calls, []);
        forall i | 0 <= i < |d.calls| ensures d.calls[i].fingerprint != f {
          UnobjectedFacts(l, d.calls[..i], d.calls[i]);
        }
        EntriesCount(l.calls, Entries(d.calls, ids), f);
      }
  }

  /** Once its repeated failure is on record, a fingerprint is never entered again. */
  lemma {:induction false} NoneReapprovedAfterFailure(trace: seq<Ledger>, events: seq<Event>, limits: Limits, i: nat, j: nat, f: Fingerprint)
    requires IsRun(trace, events) && i <= j < |trace| && trace[0] == EmptyLedger(limits) && FailedBefore(trace[i], f)
    ensures FailedBefore(trace[j], f) && CallCount(trace[j].calls, f) == CallCount(trace[i].calls, f)
    decreases j
  {
    hide Sound, Step, EmptyLedger, CallCount, FailedBefore;
    if i < j {
      NoneReapprovedAfterFailure(trace, events, limits, i, j - 1, f);
      GuardedRunsStaySound(trace, events, limits, j - 1);
      assert trace[j - 1 + 1] == Step(trace[j - 1], events[j - 1]);
      LimitsOfSound(trace[j - 1], limits);
      StepAfterFailure(trace[j - 1], events[j - 1], f);
    }
  }
}

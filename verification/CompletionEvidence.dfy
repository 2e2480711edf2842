/**
 * Whether completed tool results support a completion claim, and what persisting the ledger
 * does to that verdict.  Which actions a call and which claims an answer amount to is input.
 */
module CompletionEvidence {
  import opened Common
  import opened Decimals
  import opened ToolLedger
  import opened LedgerSnapshot

  datatype Status = Success | Failure | Pending

  datatype Claim = Of(action: Action) | Everything

  datatype Reason = Supported | PendingEvidence | FailedEvidence | UnknownEvidence | MissingEvidence

  datatype ActionEvidence = ActionEvidence(latest: Status, successes: nat, failures: nat, pending: nat)

  datatype Summary = Summary(
    actions: map<Action, ActionEvidence>,
    successfulTools: nat,
    failedTools: nat,
    pendingTools: nat,
    classifiedSuccessfulTools: nat,
    classifiedFailedTools: nat,
    unclassifiedFailedTools: nat)

  // ---- the direct reading ----

  function StatusOf(item: Evidence): Status {
    if item.failed then Failure else Success
  }

  /** Outcome of the last completed call that performs the action. */
  function LatestCompleted(completed: seq<Evidence>, a: Action): Option<Status> {
    if completed == [] then None
    else
      var item := completed[|completed| - 1];
      if a in item.call.actions then Some(StatusOf(item)) else LatestCompleted(completed[..|completed| - 1], a)
  }

  predicate PendingPerforms(pending: seq<Call>, a: Action) {
    exists i :: 0 <= i < |pending| && a in pending[i].actions
  }

  /** An outstanding call hides every completed one of its action. */
  function Latest(completed: seq<Evidence>, pending: seq<Call>, a: Action): Option<Status> {
    if PendingPerforms(pending, a) then Some(Pending) else LatestCompleted(completed, a)
  }

  /** How many completed calls have the outcome, counting only classified or only unclassified ones. */
  function Tally(completed: seq<Evidence>, failed: bool, classified: bool): nat {
    if completed == [] then 0
    else
      var item := completed[|completed| - 1];
      Tally(completed[..|completed| - 1], failed, classified)
      + if item.failed == failed && (item.call.actions != {}) == classified then 1 else 0
  }

  function TallyAction(completed: seq<Evidence>, failed: bool, a: Action): nat {
    if completed == [] then 0
    else
      var item := completed[|completed| - 1];
      TallyAction(completed[..|completed| - 1], failed, a) + if item.failed == failed && a in item.call.actions then 1 else 0
  }

  function TallyPending(pending: seq<Call>, a: Action): nat {
    if pending == [] then 0
    else TallyPending(pending[..|pending| - 1], a) + if a in pending[|pending| - 1].actions then 1 else 0
  }

  /** The counters of one action say what the ledger says. */
  predicate ActionExact(actions: map<Action, ActionEvidence>, completed: seq<Evidence>, pending: seq<Call>, a: Action) {
    var latest := Latest(completed, pending, a);
    if a in actions then
      latest.Some? && actions[a] == ActionEvidence(latest.value, TallyAction(completed, false, a),
                                                   TallyAction(completed, true, a), TallyPending(pending, a))
    else latest == None
  }

  ghost predicate ActionsExact(actions: map<Action, ActionEvidence>, completed: seq<Evidence>, pending: seq<Call>) {
    forall a :: ActionExact(actions, completed, pending, a)
  }

  ghost predicate SummaryExact(s: Summary, completed: seq<Evidence>, pending: seq<Call>) {
    && ActionsExact(s.actions, completed, pending)
    && CountersExact(s, completed)
    && s.pendingTools == |pending|
  }

  ghost predicate CountersExact(s: Summary, completed: seq<Evidence>) {
    && s.classifiedSuccessfulTools == Tally(completed, false, true)
    && s.classifiedFailedTools == Tally(completed, true, true)
    && s.unclassifiedFailedTools == Tally(completed, true, false)
    && s.successfulTools == Tally(completed, false, true) + Tally(completed, false, false)
    && s.failedTools == Tally(completed, true, true) + Tally(completed, true, false)
  }

  // ---- summarizeCompletionEvidence ----

  function Updated(evidence: ActionEvidence, status: Status): ActionEvidence {
    match status
    case Success => evidence.(latest := status, successes := evidence.successes + 1)
    case Failure => evidence.(latest := status, failures := evidence.failures + 1)
    case Pending => evidence.(latest := status, pending := evidence.pending + 1)
  }

  /** What the action's counters become when one more call with this outcome is seen. */
  function After(before: map<Action, ActionEvidence>, performed: set<Action>, status: Status, a: Action): Option<ActionEvidence> {
    if a in performed then Some(Updated(if a in before then before[a] else ActionEvidence(status, 0, 0, 0), status))
    else if a in before then Some(before[a])
    else None
  }

  ghost predicate AfterUpdate(before: map<Action, ActionEvidence>, actions: map<Action, ActionEvidence>, performed: set<Action>, status: Status) {
    forall a :: After(before, performed, status, a) == if a in actions then Some(actions[a]) else None
  }

  /** updateActionEvidence for each of a call's actions. */
  method UpdateActions(before: map<Action, ActionEvidence>, performed: set<Action>, status: Status)
    returns (actions: map<Action, ActionEvidence>)
    ensures AfterUpdate(before, actions, performed, status)
  {
    hide Updated;
    actions := before;
    var left := performed;
    while left != {}
      invariant left <= performed && AfterUpdate(before, actions, performed - left, status)
      decreases |left|
    {
      var a :| a in left;
      assert After(before, performed - left, status, a) == if a in actions then Some(actions[a]) else None;
      var evidence := if a in actions then actions[a] else ActionEvidence(status, 0, 0, 0);
      OneMoreUpdated(before, actions, performed - left, status, a, evidence);
      assert performed - left + {a} == performed - (left - {a});
      actions := actions[a := Updated(evidence, status)];
      left := left - {a};
    }
    assert performed - {} == performed;
  }

  lemma OneMoreUpdated(before: map<Action, ActionEvidence>, actions: map<Action, ActionEvidence>, done: set<Action>,
      status: Status, a: Action, evidence: ActionEvidence)
    requires AfterUpdate(before, actions, done, status) && a !in done
    requires evidence == if a in actions then actions[a] else ActionEvidence(status, 0, 0, 0)
    ensures AfterUpdate(before, actions[a := Updated(evidence, status)], done + {a}, status)
  {
    hide Updated;
    var r := actions[a := Updated(evidence, status)];
    forall b ensures After(before, done + {a}, status, b) == if b in r then Some(r[b]) else None {
      assert After(before, done, status, b) == if b in actions then Some(actions[b]) else None;
    }
  }

  method Summarize(completed: seq<Evidence>, pending: seq<Call>) returns (s: Summary)
    ensures SummaryExact(s, completed, pending)
  {
    hide ActionsExact, CountersExact;
    s := Summary(map[], 0, 0, |pending|, 0, 0, 0);
    NothingYet(s);
    for i := 0 to |completed|
      invariant ActionsExact(s.actions, completed[..i], []) && CountersExact(s, completed[..i]) && s.pendingTools == |pending|
    {
      var item := completed[i];
      ghost var before := s;
      var actions := UpdateActions(s.actions, item.call.actions, StatusOf(item));
      var classified := item.call.actions != {};
      s := s.(
        actions := actions,
        successfulTools := s.successfulTools + if item.failed then 0 else 1,
        failedTools := s.failedTools + if item.failed then 1 else 0,
        classifiedSuccessfulTools := s.classifiedSuccessfulTools + if !item.failed && classified then 1 else 0,
        classifiedFailedTools := s.classifiedFailedTools + if item.failed && classified then 1 else 0,
        unclassifiedFailedTools := s.unclassifiedFailedTools + if item.failed && !classified then 1 else 0);
      assert completed[..i + 1] == completed[..i] + [item];
      CompletedUpdates(before.actions, actions, completed[..i], item);
      CountersUpdate(before, s, completed[..i], item);
    }
    assert completed[..|completed|] == completed;
    for i := 0 to |pending|
      invariant ActionsExact(s.actions, completed, pending[..i]) && CountersExact(s, completed) && s.pendingTools == |pending|
    {
      ghost var before := s;
      var actions := UpdateActions(s.actions, pending[i].actions, Pending);
      s := s.(actions := actions);
      assert pending[..i + 1] == pending[..i] + [pending[i]];
      PendingUpdates(before.actions, actions, completed, pending[..i], pending[i]);
      CountersFrame(before, s, completed);
    }
    assert pending[..|pending|] == pending;
  }

  lemma NothingYet(s: Summary)
    requires s == Summary(map[], 0, 0, s.pendingTools, 0, 0, 0)
    ensures ActionsExact(s.actions, [], []) && CountersExact(s, [])
  {}

  lemma CountersFrame(s: Summary, t: Summary, completed: seq<Evidence>)
    requires CountersExact(s, completed) && t == s.(actions := t.actions)
    ensures CountersExact(t, completed)
  {}

  lemma TallyAppend(completed: seq<Evidence>, item: Evidence, failed: bool, classified: bool)
    ensures Tally(completed + [item], failed, classified)
            == Tally(completed, failed, classified) + if item.failed == failed && (item.call.actions != {}) == classified then 1 else 0
  {
    assert (completed + [item])[..|completed|] == completed;
  }

  lemma CountersUpdate(s: Summary, t: Summary, completed: seq<Evidence>, item: Evidence)
    requires CountersExact(s, completed)
    requires t.successfulTools == s.successfulTools + (if item.failed then 0 else 1)
    requires t.failedTools == s.failedTools + (if item.failed then 1 else 0)
    requires t.classifiedSuccessfulTools == s.classifiedSuccessfulTools + (if !item.failed && item.call.actions != {} then 1 else 0)
    requires t.classifiedFailedTools == s.classifiedFailedTools + (if item.failed && item.call.actions != {} then 1 else 0)
    requires t.unclassifiedFailedTools == s.unclassifiedFailedTools + (if item.failed && item.call.actions == {} then 1 else 0)
    ensures CountersExact(t, completed + [item])
  {
    hide Tally;
    TallyAppend(completed, item, false, true);
    TallyAppend(completed, item, false, false);
    TallyAppend(completed, item, true, true);
    TallyAppend(completed, item, true, false);
  }

  lemma CompletedAppend(completed: seq<Evidence>, item: Evidence, a: Action)
    ensures LatestCompleted(completed + [item], a) == if a in item.call.actions then Some(StatusOf(item)) else LatestCompleted(completed, a)
    ensures TallyAction(completed + [item], true, a) == TallyAction(completed, true, a) + if item.failed && a in item.call.actions then 1 else 0
    ensures TallyAction(completed + [item], false, a) == TallyAction(completed, false, a) + if !item.failed && a in item.call.actions then 1 else 0
  {
    assert (completed + [item])[..|completed|] == completed;
  }

  lemma {:induction false} NoneTallied(completed: seq<Evidence>, a: Action)
    requires LatestCompleted(completed, a) == None
    ensures TallyAction(completed, true, a) == 0 && TallyAction(completed, false, a) == 0
  {
    if completed != [] {
      NoneTallied(completed[..|completed| - 1], a);
    }
  }

  lemma CompletedUpdates(before: map<Action, ActionEvidence>, actions: map<Action, ActionEvidence>, completed: seq<Evidence>, item: Evidence)
    requires ActionsExact(before, completed, []) && AfterUpdate(before, actions, item.call.actions, StatusOf(item))
    ensures ActionsExact(actions, completed + [item], [])
  {
    hide LatestCompleted, TallyAction;
    forall a ensures ActionExact(actions, completed + [item], [], a) {
      assert ActionExact(before, completed, [], a);
      assert After(before, item.call.actions, StatusOf(item), a) == if a in actions then Some(actions[a]) else None;
      CompletedAppend(completed, item, a);
      if a !in before { NoneTallied(completed, a); }
    }
  }

  lemma PendingAppend(pending: seq<Call>, call: Call, a: Action)
    ensures TallyPending(pending + [call], a) == TallyPending(pending, a) + if a in call.actions then 1 else 0
    ensures PendingPerforms(pending + [call], a) <==> PendingPerforms(pending, a) || a in call.actions
  {
    var more := pending + [call];
    assert more[..|pending|] == pending;
    if PendingPerforms(pending, a) {
      var i :| 0 <= i < |pending| && a in pending[i].actions;
      assert a in more[i].actions;
    }
    if a in call.actions {
      assert a in more[|pending|].actions;
    }
  }

  lemma PendingPrefix(pending: seq<Call>, a: Action)
    requires pending != [] && !PendingPerforms(pending, a)
    ensures a !in pending[|pending| - 1].actions && !PendingPerforms(pending[..|pending| - 1], a)
  {
    assert forall i :: 0 <= i < |pending| - 1 ==> pending[..|pending| - 1][i] == pending[i];
  }

  lemma {:induction false} NoPendingTallied(pending: seq<Call>, a: Action)
    requires !PendingPerforms(pending, a)
    ensures TallyPending(pending, a) == 0
  {
    if pending != [] {
      PendingPrefix(pending, a);
      NoPendingTallied(pending[..|pending| - 1], a);
    }
  }

  lemma PendingUpdates(before: map<Action, ActionEvidence>, actions: map<Action, ActionEvidence>,
      completed: seq<Evidence>, pending: seq<Call>, call: Call)
    requires ActionsExact(before, completed, pending) && AfterUpdate(before, actions, call.actions, Pending)
    ensures ActionsExact(actions, completed, pending + [call])
  {
    hide LatestCompleted, TallyAction, TallyPending, PendingPerforms;
    forall a ensures ActionExact(actions, completed, pending + [call], a) {
      assert ActionExact(before, completed, pending, a);
      assert After(before, call.actions, Pending, a) == if a in actions then Some(actions[a]) else None;
      PendingAppend(pending, call, a);
      if a !in before {
        NoneTallied(completed, a);
        NoPendingTallied(pending, a);
      }
    }
  }

  // ---- evaluateCompletionEvidence ----

  predicate SomeLatest(s: Summary, status: Status) {
    exists a :: a in s.actions && s.actions[a].latest == status
  }

  /** Reading alone proves no task. */
  predicate OperationSucceeded(s: Summary) {
    exists a :: a in s.actions && a != Verify && s.actions[a].latest == Success
  }

  /** genericCompletionSupported, over the records of a ledger. */
  function GenericReason(s: Summary): Reason {
    if s.pendingTools > 0 then PendingEvidence
    else if s.unclassifiedFailedTools > 0 then FailedEvidence
    else if s.classifiedSuccessfulTools == 0 then
      if s.failedTools > 0 then FailedEvidence
      else if s.successfulTools > 0 then UnknownEvidence
      else MissingEvidence
    else if !OperationSucceeded(s) then UnknownEvidence
    else if SomeLatest(s, Failure) then FailedEvidence
    else if SomeLatest(s, Pending) then PendingEvidence
    else Supported
  }

  function ReasonFor(claim: Claim, s: Summary): Reason {
    match claim
    case Everything => GenericReason(s)
    case Of(a) =>
      if s.pendingTools > 0 then PendingEvidence
      else if a !in s.actions then MissingEvidence
      else match s.actions[a].latest
        case Success => Supported
        case Failure => FailedEvidence
        case Pending => PendingEvidence
  }

  datatype Verdict = Verdict(allowed: bool, reason: Option<Reason>, unsupported: seq<Claim>)

  function Unsupported(claims: seq<Claim>, s: Summary): seq<Claim> {
    if claims == [] then []
    else (if ReasonFor(claims[0], s) != Supported then [claims[0]] else []) + Unsupported(claims[1..], s)
  }

  /** The gravest reason among the unsupported claims. */
  function Gravest(claims: seq<Claim>, s: Summary): Reason {
    if exists c :: c in claims && ReasonFor(c, s) == PendingEvidence then PendingEvidence
    else if exists c :: c in claims && ReasonFor(c, s) == FailedEvidence then FailedEvidence
    else if exists c :: c in claims && ReasonFor(c, s) == UnknownEvidence then UnknownEvidence
    else MissingEvidence
  }

  /** The verdict over the claims found in an answer. */
  function Evaluate(claims: seq<Claim>, s: Summary): Verdict {
    var unsupported := Unsupported(claims, s);
    if claims == [] then Verdict(true, None, [])
    else if unsupported == [] then Verdict(true, Some(Supported), [])
    else Verdict(false, Some(Gravest(unsupported, s)), unsupported)
  }

  lemma {:induction false} NoneUnsupported(claims: seq<Claim>, s: Summary)
    ensures Unsupported(claims, s) == [] <==> forall c :: c in claims ==> ReasonFor(c, s) == Supported
  {
    hide ReasonFor;
    if claims != [] {
      NoneUnsupported(claims[1..], s);
      assert forall c :: c in claims <==> c == claims[0] || c in claims[1..];
    }
  }

  /** An answer passes exactly when each of its claims is supported. */
  lemma AllowedIffAllSupported(claims: seq<Claim>, s: Summary)
    ensures Evaluate(claims, s).allowed <==> forall c :: c in claims ==> ReasonFor(c, s) == Supported
  {
    hide ReasonFor, Unsupported, Gravest;
    NoneUnsupported(claims, s);
  }

  // ---- what the verdict means on the ledger itself, nothing pending ----

  predicate FailsUnclassified(items: seq<Evidence>) {
    exists i :: 0 <= i < |items| && items[i].failed && items[i].call.actions == {}
  }

  /** Any recorded failure that no later success of the same action has made good. */
  ghost predicate OpenFailure(completed: seq<Evidence>) {
    FailsLast(completed) || FailsUnclassified(completed)
  }

  ghost predicate FailsLast(completed: seq<Evidence>) {
    exists a :: LatestCompleted(completed, a) == Some(Failure)
  }

  ghost predicate ProvesAction(completed: seq<Evidence>) {
    exists a :: a != Verify && LatestCompleted(completed, a) == Some(Success)
  }

  lemma {:induction false} TallyZero(completed: seq<Evidence>, failed: bool, classified: bool)
    ensures Tally(completed, failed, classified) == 0
            <==> forall i :: 0 <= i < |completed| ==> !(completed[i].failed == failed && (completed[i].call.actions != {}) == classified)
  {
    if completed != [] {
      var n := |completed| - 1;
      TallyZero(completed[..n], failed, classified);
      assert forall i :: 0 <= i < n ==> completed[..n][i] == completed[i];
    }
  }

  lemma {:induction false} LatestIsSome(completed: seq<Evidence>, a: Action) returns (i: nat)
    requires LatestCompleted(completed, a).Some?
    ensures i < |completed| && a in completed[i].call.actions && Some(StatusOf(completed[i])) == LatestCompleted(completed, a)
  {
    var n := |completed| - 1;
    if a in completed[n].call.actions {
      i := n;
    } else {
      i := LatestIsSome(completed[..n], a);
    }
  }

  lemma ActionsByLatest(s: Summary, completed: seq<Evidence>)
    requires SummaryExact(s, completed, [])
    ensures forall a :: LatestCompleted(completed, a) == if a in s.actions then Some(s.actions[a].latest) else None
  {
    hide LatestCompleted, TallyAction, Tally;
    forall a ensures LatestCompleted(completed, a) == if a in s.actions then Some(s.actions[a].latest) else None {
      assert ActionExact(s.actions, completed, [], a);
    }
  }

  /** An action claim is supported exactly when nothing is pending and its last completion succeeded. */
  lemma ActionClaim(s: Summary, completed: seq<Evidence>, pending: seq<Call>, a: Action)
    requires SummaryExact(s, completed, pending)
    ensures ReasonFor(Of(a), s) == Supported <==> pending == [] && LatestCompleted(completed, a) == Some(Success)
  {
    hide LatestCompleted, TallyAction, CountersExact;
    assert ActionExact(s.actions, completed, pending, a);
  }

  lemma ActionProven(s: Summary, completed: seq<Evidence>)
    requires SummaryExact(s, completed, [])
    ensures OperationSucceeded(s) <==> ProvesAction(completed)
  {
    hide LatestCompleted, SummaryExact;
    ActionsByLatest(s, completed);
    if ProvesAction(completed) {
      var a :| a != Verify && LatestCompleted(completed, a) == Some(Success);
      assert a in s.actions && s.actions[a].latest == Success;
    }
    if OperationSucceeded(s) {
      var a :| a in s.actions && a != Verify && s.actions[a].latest == Success;
      assert LatestCompleted(completed, a) == Some(Success);
    }
  }

  lemma ActionFailed(s: Summary, completed: seq<Evidence>)
    requires SummaryExact(s, completed, [])
    ensures SomeLatest(s, Failure) <==> FailsLast(completed)
    ensures !SomeLatest(s, Pending)
  {
    hide LatestCompleted, SummaryExact;
    ActionsByLatest(s, completed);
    if FailsLast(completed) {
      var a :| LatestCompleted(completed, a) == Some(Failure);
      assert a in s.actions && s.actions[a].latest == Failure;
    }
    if SomeLatest(s, Failure) {
      var a :| a in s.actions && s.actions[a].latest == Failure;
      assert LatestCompleted(completed, a) == Some(Failure);
    }
    if SomeLatest(s, Pending) {
      var a :| a in s.actions && s.actions[a].latest == Pending;
      assert LatestCompleted(completed, a) == Some(Pending);
      var i := LatestIsSome(completed, a);
    }
  }

  lemma UnclassifiedByTally(completed: seq<Evidence>)
    ensures FailsUnclassified(completed) <==> Tally(completed, true, false) > 0
  {
    hide Tally;
    TallyZero(completed, true, false);
  }

  lemma ProofIsClassified(completed: seq<Evidence>)
    requires ProvesAction(completed)
    ensures Tally(completed, false, true) > 0
  {
    hide LatestCompleted, Tally;
    var a :| a != Verify && LatestCompleted(completed, a) == Some(Success);
    var i := LatestIsSome(completed, a);
    TallyZero(completed, false, true);
    assert !completed[i].failed && completed[i].call.actions != {};
  }

  /**
   * A whole-task claim is supported exactly when nothing is pending, some action other than verification
   * succeeded last, and no failure is open.
   */
  lemma EverythingClaim(s: Summary, completed: seq<Evidence>, pending: seq<Call>)
    requires SummaryExact(s, completed, pending)
    ensures ReasonFor(Everything, s) == Supported <==> pending == [] && ProvesAction(completed) && !OpenFailure(completed)
  {
    hide ProvesAction, Tally, ActionsExact, OperationSucceeded, SomeLatest, FailsLast, FailsUnclassified;
    if pending == [] {
      UnclassifiedByTally(completed);
      ActionProven(s, completed);
      ActionFailed(s, completed);
      if ProvesAction(completed) { ProofIsClassified(completed); }
    }
  }

  // ---- persisting and reloading ----

  /** A call's actions are determined by its fingerprint. */
  ghost predicate ActionsByFingerprint(completed: seq<Evidence>) {
    forall i, j :: 0 <= i < |completed| && 0 <= j < |completed| && completed[i].call.fingerprint == completed[j].call.fingerprint
      ==> completed[i].call.actions == completed[j].call.actions
  }

  /** The last entry that performs the action. */
  function LatestEntry(entries: seq<Entry>, a: Action): Option<Entry> {
    if entries == [] then None
    else if a in entries[|entries| - 1].actions then Some(entries[|entries| - 1])
    else LatestEntry(entries[..|entries| - 1], a)
  }

  lemma LatestEntryAppend(entries: seq<Entry>, e: Entry, a: Action)
    ensures LatestEntry(entries + [e], a) == if a in e.actions then Some(e) else LatestEntry(entries, a)
  {
    assert (entries + [e])[..|entries|] == entries;
  }

  /** Removing entries without the action does not matter to it. */
  lemma {:induction false} LatestEntryWithout(entries: seq<Entry>, f: Fingerprint, a: Action)
    requires forall e :: e in entries && e.fingerprint == f ==> a !in e.actions
    ensures LatestEntry(Without(entries, f), a) == LatestEntry(entries, a)
  {
    hide Without;
    if entries == [] {
      assert Without(entries, f) == [] by { WithoutEmpty(f); }
    } else {
      var n := |entries| - 1;
      var front, e := entries[..n], entries[n];
      assert entries == front + [e];
      LatestEntryWithout(front, f, a);
      WithoutAppend(front, e, f);
      if e.fingerprint != f {
        LatestEntryAppend(Without(front, f), e, a);
      } else {
        assert e in entries;
      }
    }
  }

  lemma WithoutEmpty(f: Fingerprint)
    ensures Without([], f) == []
  {}

  lemma {:induction false} WithoutAppend(entries: seq<Entry>, e: Entry, f: Fingerprint)
    ensures Without(entries + [e], f) == if e.fingerprint == f then Without(entries, f) else Without(entries, f) + [e]
  {
    if entries == [] {
      assert [] + [e] == [e];
    } else {
      WithoutAppend(entries[1..], e, f);
      assert (entries + [e])[1..] == entries[1..] + [e];
    }
  }

  lemma PrefixActions(completed: seq<Evidence>, n: nat)
    requires ActionsByFingerprint(completed) && n <= |completed|
    ensures ActionsByFingerprint(completed[..n])
  {}

  predicate Stands(e: Entry, item: Evidence) {
    e.fingerprint == item.call.fingerprint && e.actions == item.call.actions
  }

  predicate HasSource(e: Entry, completed: seq<Evidence>, failed: bool) {
    exists i :: 0 <= i < |completed| && Stands(e, completed[i]) && (failed ==> completed[i].failed)
  }

  predicate HasEntry(entries: seq<Entry>, item: Evidence) {
    exists j :: 0 <= j < |entries| && Stands(entries[j], item) && (item.failed ==> entries[j].failed)
  }

  /** Each entry stands for completed calls of its fingerprint, and is failed when any of them is. */
  ghost predicate Represents(entries: seq<Entry>, completed: seq<Evidence>) {
    && (forall j :: 0 <= j < |entries| ==> HasSource(entries[j], completed, entries[j].failed))
    && (forall i :: 0 <= i < |completed| ==> HasEntry(entries, completed[i]))
  }

  lemma SourceGrows(e: Entry, completed: seq<Evidence>, item: Evidence, failed: bool)
    requires HasSource(e, completed, failed)
    ensures HasSource(e, completed + [item], failed)
  {
    var i :| 0 <= i < |completed| && Stands(e, completed[i]) && (failed ==> completed[i].failed);
    assert (completed + [item])[i] == completed[i];
  }

  /** The merged entry takes the new call in without losing an earlier failure. */
  lemma MergedStands(entries: seq<Entry>, completed: seq<Evidence>, item: Evidence)
    requires ActionsByFingerprint(completed + [item]) && Represents(entries, completed)
    ensures var e := Merged(Find(entries, item.call.fingerprint), item);
            Stands(e, item) && HasSource(e, completed + [item], e.failed) && (item.failed ==> e.failed)
  {
    hide Find, AddFailure;
    var f := item.call.fingerprint;
    var all := completed + [item];
    var found := Find(entries, f);
    var e := Merged(found, item);
    assert all[|completed|] == item;
    if found.Some? {
      var p := found.value;
      var j :| 0 <= j < |entries| && entries[j] == p;
      var i :| 0 <= i < |completed| && Stands(p, completed[i]) && (p.failed ==> completed[i].failed);
      assert all[i].call.actions == all[|completed|].call.actions;
      assert e.actions == item.call.actions;
      assert Stands(e, all[i]);
      assert p.failed ==> all[i].failed;
    }
    assert Stands(e, all[|completed|]);
  }

  lemma EntryKept(entries: seq<Entry>, f: Fingerprint, e: Entry, x: Evidence)
    requires HasEntry(entries, x) && x.call.fingerprint != f
    ensures HasEntry(Without(entries, f) + [e], x)
  {
    hide Without;
    var r := Without(entries, f);
    var j :| 0 <= j < |entries| && Stands(entries[j], x) && (x.failed ==> entries[j].failed);
    assert entries[j] in r;
    var k :| 0 <= k < |r| && r[k] == entries[j];
    assert (r + [e])[k] == entries[j];
  }

  lemma EntryMerged(entries: seq<Entry>, item: Evidence, x: Evidence)
    requires HasEntry(entries, x) && OneEach(entries) && x.call.fingerprint == item.call.fingerprint && x.call.actions == item.call.actions
    ensures var e := Merged(Find(entries, item.call.fingerprint), item); Stands(e, x) && (x.failed ==> e.failed)
  {
    hide Find, AddFailure, OneEach;
    var j :| 0 <= j < |entries| && Stands(entries[j], x) && (x.failed ==> entries[j].failed);
    UniqueEntry(entries, entries[j]);
  }

  lemma EntryAfterUpsert(entries: seq<Entry>, completed: seq<Evidence>, item: Evidence, i: nat)
    requires ActionsByFingerprint(completed + [item]) && Represents(entries, completed) && OneEach(entries) && i < |completed|
    ensures var f := item.call.fingerprint;
            HasEntry(Without(entries, f) + [Merged(Find(entries, f), item)], completed[i])
  {
    hide Find, Without, Merged, HasSource, HasEntry, OneEach, Stands;
    var f := item.call.fingerprint;
    var all := completed + [item];
    var e := Merged(Find(entries, f), item);
    EntryOf(entries, completed, i);
    if completed[i].call.fingerprint == f {
      assert all[i].call.actions == all[|completed|].call.actions;
      EntryMerged(entries, item, completed[i]);
      LastHasEntry(Without(entries, f), e, completed[i]);
    } else {
      EntryKept(entries, f, e, completed[i]);
    }
  }

  lemma EntryOf(entries: seq<Entry>, completed: seq<Evidence>, i: nat)
    requires Represents(entries, completed) && i < |completed|
    ensures HasEntry(entries, completed[i])
  {}

  lemma UpsertRepresents(entries: seq<Entry>, completed: seq<Evidence>, item: Evidence)
    requires ActionsByFingerprint(completed + [item]) && Represents(entries, completed) && OneEach(entries)
    ensures var f := item.call.fingerprint;
            Represents(Without(entries, f) + [Merged(Find(entries, f), item)], completed + [item])
  {
    hide Find, Without, Merged, HasSource, HasEntry, Stands;
    var f := item.call.fingerprint;
    var all := completed + [item];
    var e := Merged(Find(entries, f), item);
    var r := Without(entries, f) + [e];
    MergedStands(entries, completed, item);
    forall j | 0 <= j < |r| ensures HasSource(r[j], all, r[j].failed) {
      if j < |r| - 1 {
        assert r[j] in Without(entries, f);
        var k :| 0 <= k < |entries| && entries[k] == r[j];
        SourceGrows(r[j], completed, item, r[j].failed);
      }
    }
    forall i | 0 <= i < |all| ensures HasEntry(r, all[i]) {
      if i < |completed| {
        EntryAfterUpsert(entries, completed, item, i);
      } else {
        LastHasEntry(Without(entries, f), e, item);
      }
    }
  }

  lemma LastHasEntry(entries: seq<Entry>, e: Entry, item: Evidence)
    requires Stands(e, item) && (item.failed ==> e.failed)
    ensures HasEntry(entries + [e], item)
  {
    assert (entries + [e])[|entries|] == e;
  }

  lemma {:induction false} SummariesRepresent(completed: seq<Evidence>)
    requires Named(completed) && ActionsByFingerprint(completed)
    ensures Represents(Summaries(completed), completed)
  {
    hide Represents, Without, Merged, Find, OneEach, ValidEntry;
    if completed == [] {
      NothingRepresented();
    } else {
      var n := |completed| - 1;
      var front := completed[..n];
      PrefixActions(completed, n);
      SummariesRepresent(front);
      SummariesAreValid(front);
      assert front + [completed[n]] == completed;
      UpsertRepresents(Summaries(front), front, completed[n]);
      UnfoldSummaries(completed);
    }
  }

  lemma NothingRepresented()
    ensures Represents(Summaries([]), [])
  {}

  /** The last entry for an action stands for its last completed call, and remembers its failure. */
  predicate SameLatest(latest: Option<Status>, entry: Option<Entry>) {
    && (latest.None? <==> entry.None?)
    && (latest == Some(Failure) ==> entry.Some? && entry.value.failed)
    && (latest != Some(Pending))
  }

  lemma {:induction false} LatestInSummaries(completed: seq<Evidence>, a: Action)
    requires Named(completed) && ActionsByFingerprint(completed)
    ensures SameLatest(LatestCompleted(completed, a), LatestEntry(Summaries(completed), a))
  {
    hide Represents, Without, Merged, Find, OneEach, ValidEntry;
    if completed == [] {
      EmptySummaries();
    } else {
      var n := |completed| - 1;
      var front, item := completed[..n], completed[n];
      var before := Summaries(front);
      PrefixActions(completed, n);
      LatestInSummaries(front, a);
      SummariesRepresent(front);
      assert front + [item] == completed;
      MergedStands(before, front, item);
      UnfoldSummaries(completed);
      LatestEntryAppend(Without(before, item.call.fingerprint), Merged(Find(before, item.call.fingerprint), item), a);
      if a !in item.call.actions {
        forall e | e in before && e.fingerprint == item.call.fingerprint ensures a !in e.actions {
          EntryActions(before, front, item, e);
        }
        LatestEntryWithout(before, item.call.fingerprint, a);
      }
    }
  }

  lemma EntryActions(entries: seq<Entry>, completed: seq<Evidence>, item: Evidence, e: Entry)
    requires ActionsByFingerprint(completed + [item]) && Represents(entries, completed) && e in entries
    requires e.fingerprint == item.call.fingerprint
    ensures e.actions == item.call.actions
  {
    var j :| 0 <= j < |entries| && entries[j] == e;
    assert HasSource(entries[j], completed, entries[j].failed);
    var i :| 0 <= i < |completed| && Stands(e, completed[i]);
    var all := completed + [item];
    assert all[i].call.actions == all[|completed|].call.actions;
  }

  // ---- the reloaded records ----

  function EntryStatus(e: Entry): Status {
    if e.failed then Failure else Success
  }

  lemma {:induction false} LatestOfCopies(done: seq<Evidence>, index: nat, e: Entry, k: nat, a: Action)
    requires k > 0
    ensures LatestCompleted(done + CopiesOf(index, e, k), a)
            == if a in e.actions then Some(EntryStatus(e)) else LatestCompleted(done, a)
  {
    hide Distinct;
    var all := done + CopiesOf(index, e, k);
    assert all == done + CopiesOf(index, e, k - 1) + [Copy(index, k - 1, e)];
    CompletedAppend(done + CopiesOf(index, e, k - 1), Copy(index, k - 1, e), a);
    if k == 1 {
      assert done + [] == done;
    } else {
      LatestOfCopies(done, index, e, k - 1, a);
    }
  }

  lemma {:induction false} LatestOfReload(entries: seq<Entry>, a: Action)
    ensures LatestCompleted(CompletedOf(entries), a)
            == var e := LatestEntry(entries, a); if e.None? then None else Some(EntryStatus(e.value))
  {
    hide CopiesOf, Copies;
    if entries != [] {
      var n := |entries| - 1;
      LatestOfReload(entries[..n], a);
      LatestOfCopies(CompletedOf(entries[..n]), n, entries[n], Copies(entries[n]), a);
    }
  }

  lemma {:induction false} CopiesFail(index: nat, e: Entry, k: nat)
    ensures forall x :: x in CopiesOf(index, e, k) ==> x.failed == e.failed && x.call.actions == e.actions
    ensures k > 0 ==> CopiesOf(index, e, k) != []
  {
    hide Distinct;
    if k > 0 {
      CopiesFail(index, e, k - 1);
    }
  }

  /** A reloaded record fails without an action exactly where its entry does. */
  lemma {:induction false} ReloadFails(entries: seq<Entry>)
    ensures FailsUnclassified(CompletedOf(entries)) <==> exists j :: 0 <= j < |entries| && entries[j].failed && entries[j].actions == {}
  {
    hide CopiesOf, Copies;
    if entries != [] {
      var n := |entries| - 1;
      var front, e := entries[..n], entries[n];
      ReloadFails(front);
      var before, copies := CompletedOf(front), CopiesOf(n, e, Copies(e));
      CopiesFail(n, e, Copies(e));
      FailsConcat(before, copies);
      assert FailsUnclassified(copies) <==> e.failed && e.actions == {} by {
        assert copies[0] in copies;
        if i :| 0 <= i < |copies| && copies[i].failed && copies[i].call.actions == {} {
          assert copies[i] in copies;
        }
      }
      assert forall j :: 0 <= j < n ==> front[j] == entries[j];
    }
  }

  lemma FailsConcat(a: seq<Evidence>, b: seq<Evidence>)
    ensures FailsUnclassified(a + b) <==> FailsUnclassified(a) || FailsUnclassified(b)
  {
    if i :| 0 <= i < |a| && a[i].failed && a[i].call.actions == {} {
      assert (a + b)[i] == a[i];
    }
    if i :| 0 <= i < |b| && b[i].failed && b[i].call.actions == {} {
      assert (a + b)[|a| + i] == b[i];
    }
    if i :| 0 <= i < |a + b| && (a + b)[i].failed && (a + b)[i].call.actions == {} {
      assert if i < |a| then a[i] == (a + b)[i] else b[i - |a|] == (a + b)[i];
    }
  }

  // ---- conservative projection ----

  predicate KeepsAction(completed: seq<Evidence>, maximum: nat, a: Action) {
    LatestEntry(Snapshot(completed, maximum), a).Some?
  }

  /**
   * The snapshot dropped the only trace of an open failure: an action whose last completion
   * failed and that no kept entry performs, or a failed call without any action.
   */
  ghost predicate DroppedFailure(completed: seq<Evidence>, maximum: nat) {
    || (exists a :: LatestCompleted(completed, a) == Some(Failure) && !KeepsAction(completed, maximum, a))
    || (exists i :: 0 <= i < |completed| && completed[i].failed && completed[i].call.actions == {}
          && !Kept(completed, maximum, completed[i].call.fingerprint))
  }

  lemma {:induction false} LatestInSuffix(entries: seq<Entry>, n: nat, a: Action)
    requires n <= |entries| && LatestEntry(entries[n..], a).Some?
    ensures LatestEntry(entries, a) == LatestEntry(entries[n..], a)
    decreases |entries|
  {
    if n < |entries| {
      var m := |entries| - 1;
      assert entries[n..][m - n] == entries[m];
      assert entries[n..][..m - n] == entries[..m][n..];
      if a !in entries[m].actions {
        LatestInSuffix(entries[..m], n, a);
      }
    }
  }

  lemma ReloadedRecords(completed: seq<Evidence>, maximum: nat, limits: Limits)
    requires Named(completed)
    ensures Reload(Snapshot(completed, maximum), limits).completed == CompletedOf(Snapshot(completed, maximum))
  {
    hide Summaries, ValidEntry, ReloadAll, Named, CompletedOf, OneEach;
    SummariesAreValid(completed);
    SuffixIsValid(Summaries(completed), SnapshotLimit(maximum));
    assert LastOf(Snapshot(completed, maximum), HARD_MAX_TOOL_ROUNDS) == Snapshot(completed, maximum);
    ReloadCompleted(Snapshot(completed, maximum), limits);
  }

  /** An action that the reloaded ledger proves done was done in the original. */
  lemma LatestAfterReload(completed: seq<Evidence>, maximum: nat, limits: Limits, a: Action)
    requires Named(completed) && ActionsByFingerprint(completed)
    ensures var after := LatestCompleted(Reload(Snapshot(completed, maximum), limits).completed, a);
            && (after == Some(Success) ==> LatestCompleted(completed, a) == Some(Success))
            && (after.Some? <==> KeepsAction(completed, maximum, a))
  {
    hide LatestCompleted, Summaries, ActionsByFingerprint, Named, LatestEntry, CompletedOf, Reload;
    ReloadedRecords(completed, maximum, limits);
    var all := Summaries(completed);
    var s := Snapshot(completed, maximum);
    LatestOfReload(s, a);
    LatestInSummaries(completed, a);
    if LatestEntry(s, a).Some? {
      assert s == all[|all| - |s|..];
      LatestInSuffix(all, |all| - |s|, a);
      var status := LatestCompleted(completed, a).value;
      assert status.Success? || status.Failure? || status.Pending?;
    }
  }

  lemma FailsAfterReload(completed: seq<Evidence>, maximum: nat, limits: Limits, i: nat)
    requires Named(completed) && ActionsByFingerprint(completed)
    requires i < |completed| && completed[i].failed && completed[i].call.actions == {}
    requires Kept(completed, maximum, completed[i].call.fingerprint)
    ensures FailsUnclassified(Reload(Snapshot(completed, maximum), limits).completed)
  {
    hide LatestCompleted, Summaries, ActionsByFingerprint, Named, CompletedOf, FailsUnclassified, Reload, OneEach, ValidEntry, Represents;
    ReloadedRecords(completed, maximum, limits);
    var all := Summaries(completed);
    var s := Snapshot(completed, maximum);
    SummariesRepresent(completed);
    SummariesAreValid(completed);
    EntryOf(all, completed, i);
    var j :| 0 <= j < |all| && Stands(all[j], completed[i]) && (completed[i].failed ==> all[j].failed);
    var e :| e in s && e.fingerprint == completed[i].call.fingerprint;
    var k :| 0 <= k < |s| && s[k] == e;
    assert e in all;
    UniqueEntry(all, e);
    UniqueEntry(all, all[j]);
    ReloadFails(s);
    assert s[k].failed && s[k].actions == {};
  }

  /**
   * Given that the reloaded ledger supports a whole-task claim, the original does exactly when
   * the snapshot dropped no open failure.
   */
  lemma EverythingAfterReload(completed: seq<Evidence>, maximum: nat, limits: Limits)
    requires Named(completed) && ActionsByFingerprint(completed)
    requires var after := Reload(Snapshot(completed, maximum), limits).completed; ProvesAction(after) && !OpenFailure(after)
    ensures ProvesAction(completed) && (OpenFailure(completed) <==> DroppedFailure(completed, maximum))
  {
    hide LatestCompleted, Summaries, ActionsByFingerprint, Named, KeepsAction, Kept, Reload, Snapshot;
    var after := Reload(Snapshot(completed, maximum), limits).completed;
    var a :| a != Verify && LatestCompleted(after, a) == Some(Success);
    LatestAfterReload(completed, maximum, limits, a);
    if OpenFailure(completed) {
      if b :| LatestCompleted(completed, b) == Some(Failure) {
        LatestAfterReload(completed, maximum, limits, b);
        NeverPending(after, b);
        assert !KeepsAction(completed, maximum, b);
      } else {
        var i :| 0 <= i < |completed| && completed[i].failed && completed[i].call.actions == {};
        if Kept(completed, maximum, completed[i].call.fingerprint) {
          FailsAfterReload(completed, maximum, limits, i);
        }
      }
    }
    if DroppedFailure(completed, maximum) && !exists b :: LatestCompleted(completed, b) == Some(Failure) {
      var i :| 0 <= i < |completed| && completed[i].failed && completed[i].call.actions == {};
      assert FailsUnclassified(completed);
    }
  }

  lemma {:induction false} NeverPending(completed: seq<Evidence>, a: Action)
    ensures LatestCompleted(completed, a) in {None, Some(Success), Some(Failure)}
  {
    if completed != [] {
      NeverPending(completed[..|completed| - 1], a);
    }
  }

  /** The verdict carries over from a reloaded ledger to the one it was taken from, when nothing is pending there. */
  lemma ReloadedVerdictIsConservative(l: Ledger, maximum: nat, limits: Limits, claims: seq<Claim>, original: Summary, reloaded: Summary)
    requires Inv(l) && ActionsByFingerprint(l.completed)
    requires SummaryExact(original, l.completed, [])
    requires SummaryExact(reloaded, Reload(Snapshot(l.completed, maximum), limits).completed, [])
    requires Evaluate(claims, reloaded).allowed
    ensures Evaluate(claims, original).allowed <==> !(Everything in claims && DroppedFailure(l.completed, maximum))
  {
    hide Inv, ActionsByFingerprint, Named, SummaryExact, Evaluate, Reload, Snapshot, DroppedFailure;
    LedgerIsNamed(l);
    VerdictAfterReload(l.completed, maximum, limits, claims, original, reloaded);
  }

  lemma VerdictAfterReload(completed: seq<Evidence>, maximum: nat, limits: Limits, claims: seq<Claim>, original: Summary, reloaded: Summary)
    requires Named(completed) && ActionsByFingerprint(completed)
    requires SummaryExact(original, completed, [])
    requires SummaryExact(reloaded, Reload(Snapshot(completed, maximum), limits).completed, [])
    requires Evaluate(claims, reloaded).allowed
    ensures Evaluate(claims, original).allowed <==> !(Everything in claims && DroppedFailure(completed, maximum))
  {
    hide LatestCompleted, Summaries, ActionsByFingerprint, Named, SummaryExact, Evaluate, ReasonFor, Reload, Snapshot, OpenFailure, ProvesAction, DroppedFailure;
    var after := Reload(Snapshot(completed, maximum), limits).completed;
    AllowedIffAllSupported(claims, original);
    AllowedIffAllSupported(claims, reloaded);
    forall c | c in claims && c.Of? ensures ReasonFor(c, original) == Supported {
      assert c == Of(c.action);
      ActionClaim(reloaded, after, [], c.action);
      ActionClaim(original, completed, [], c.action);
      LatestAfterReload(completed, maximum, limits, c.action);
    }
    if Everything in claims {
      EverythingClaim(reloaded, after, []);
      EverythingClaim(original, completed, []);
      EverythingAfterReload(completed, maximum, limits);
    }
    assert forall c :: c in claims ==> c == Everything || c.Of?;
  }

  /** With no more fingerprints than the snapshot holds, nothing is dropped. */
  lemma NothingDropped(l: Ledger, maximum: nat)
    requires Inv(l) && ActionsByFingerprint(l.completed) && |Summaries(l.completed)| <= SnapshotLimit(maximum)
    ensures !DroppedFailure(l.completed, maximum)
  {
    hide Inv, ActionsByFingerprint, Named, Summaries, DroppedFailure;
    LedgerIsNamed(l);
    KeptFailures(l.completed, maximum);
  }

  lemma KeptFailures(completed: seq<Evidence>, maximum: nat)
    requires Named(completed) && ActionsByFingerprint(completed) && |Summaries(completed)| <= SnapshotLimit(maximum)
    ensures !DroppedFailure(completed, maximum)
  {
    hide LatestCompleted, Summaries, ActionsByFingerprint, Named, LatestEntry, Represents;
    assert Snapshot(completed, maximum) == Summaries(completed);
    SummariesRepresent(completed);
    forall i | 0 <= i < |completed| ensures Kept(completed, maximum, completed[i].call.fingerprint) {
      EntryOf(Summaries(completed), completed, i);
      var j :| 0 <= j < |Summaries(completed)| && Stands(Summaries(completed)[j], completed[i]);
      assert Summaries(completed)[j] in Summaries(completed);
    }
    forall a ensures LatestCompleted(completed, a) == Some(Failure) ==> KeepsAction(completed, maximum, a) {
      LatestInSummaries(completed, a);
    }
  }

  // ---- beyond 32 fingerprints a whole-task claim can pass only after the reload ----

  /** A failed call without any action, then deployments that all succeed. */
  function Sample(i: nat): Evidence {
    Evidence(Call(Given([i]), [97], Fingerprint([97], [i]), if i == 0 then {} else {Deploy}), i == 0, if i == 0 then Some([0]) else None)
  }

  function Samples(n: nat): (r: seq<Evidence>)
    ensures |r| == n && forall i :: 0 <= i < n ==> r[i] == Sample(i)
  {
    seq(n, i requires 0 <= i < n => Sample(i))
  }

  lemma {:induction false} SamplesSummaries(n: nat)
    ensures |Summaries(Samples(n))| == n
    ensures forall i :: 0 <= i < n ==> Summaries(Samples(n))[i] == Merged(None, Sample(i))
  {
    hide Summaries, Without, Find, Merged;
    if n == 0 {
      assert Samples(0) == [];
      EmptySummaries();
    } else {
      SamplesSummaries(n - 1);
      var before := Summaries(Samples(n - 1));
      assert Samples(n)[..n - 1] == Samples(n - 1);
      UnfoldSummaries(Samples(n));
      forall i | 0 <= i < n - 1 ensures before[i].fingerprint != Sample(n - 1).call.fingerprint {
        MergedCount(None, Sample(i));
      }
      AbsentFingerprint(before, Sample(n - 1).call.fingerprint);
    }
  }

  /** A whole-task claim that the reloaded ledger supports and the original refuses. */
  lemma DroppedFailureHappens(limits: Limits, original: Summary, reloaded: Summary)
    requires SummaryExact(original, Samples(33), [])
    requires SummaryExact(reloaded, Reload(Snapshot(Samples(33), DEFAULT_SNAPSHOTS), limits).completed, [])
    ensures Evaluate([Everything], reloaded).allowed && !Evaluate([Everything], original).allowed
  {
    hide LatestCompleted, Summaries, Merged, SummaryExact, Evaluate, ReasonFor, Reload, CompletedOf, LatestEntry;
    var items := Samples(33);
    SamplesSummaries(33);
    ReloadedRecords(items, DEFAULT_SNAPSHOTS, limits);
    var s := Snapshot(items, DEFAULT_SNAPSHOTS);
    forall i | 0 <= i < 32 ensures s[i].actions == {Deploy} && !s[i].failed {
      assert s[i] == Merged(None, Sample(i + 1));
      MergedSample(i + 1);
    }
    OnlyDeploys(s);
    ReloadFails(s);
    forall a ensures LatestCompleted(CompletedOf(s), a) == if a == Deploy then Some(Success) else None {
      LatestOfReload(s, a);
    }
    assert LatestCompleted(CompletedOf(s), Deploy) == Some(Success);
    assert ProvesAction(CompletedOf(s)) && !OpenFailure(CompletedOf(s));
    assert items[0].failed && items[0].call.actions == {};
    assert OpenFailure(items);
    EverythingClaim(original, items, []);
    EverythingClaim(reloaded, CompletedOf(s), []);
    AllowedIffAllSupported([Everything], original);
    AllowedIffAllSupported([Everything], reloaded);
    assert Everything in [Everything];
  }

  lemma MergedSample(i: nat)
    requires i > 0
    ensures Merged(None, Sample(i)).actions == {Deploy} && !Merged(None, Sample(i)).failed
  {}

  lemma {:induction false} OnlyDeploys(entries: seq<Entry>)
    requires forall i :: 0 <= i < |entries| ==> entries[i].actions == {Deploy} && !entries[i].failed
    ensures forall a :: LatestEntry(entries, a) == if a == Deploy && entries != [] then Some(entries[|entries| - 1]) else None
  {
    if entries != [] {
      OnlyDeploys(entries[..|entries| - 1]);
    }
  }
}

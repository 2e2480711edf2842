/**
 * The loop-prevention ledger of tool calls: registration, results, and the guard over
 * proposed calls.  SHA-256 identities are modelled as the values they identify.
 */
module ToolLedger {
  import opened Common
  import opened Decimals
  import opened CanonicalJson

  const DEFAULT_MAX_TOOL_ROUNDS := 32
  const HARD_MAX_TOOL_ROUNDS := 512
  const DEFAULT_MAX_CONSECUTIVE_FINGERPRINTS := 2
  const MAX_COMPLETED_FINGERPRINT_OCCURRENCES := 8

  datatype Action = Deploy | Fix | Install | Verify | Upload | Delete | Create | Configure | Start

  datatype Fingerprint = Fingerprint(name: Text, arguments: Text)

  type Failure = Text

  /** Ids chosen by a client, and the ids given to calls restored from a snapshot. */
  datatype CallId = Given(text: Text) | Persisted(index: nat, occurrence: nat, fingerprint: Fingerprint)

  datatype Code =
    | MissingCallId | MissingToolName | DuplicateCallId | UnknownCallId | CallIdAlreadyConsumed
    | DuplicatePendingCall | CompletedCallReissued | RepeatedFailure | ToolRoundLimit
    | ConsecutiveFingerprintLimit | PendingToolResult

  datatype Issue = Issue(code: Code, callId: Option<CallId>, fingerprint: Option<Fingerprint>)

  datatype Call = Call(id: CallId, name: Text, fingerprint: Fingerprint, actions: set<Action>)

  datatype Evidence = Evidence(call: Call, failed: bool, failure: Option<Failure>)

  datatype Limits = Limits(maxToolRounds: nat, maxConsecutiveFingerprints: nat)

  datatype Ledger = Ledger(
    callsById: map<CallId, Call>,
    calls: seq<Call>,
    completed: seq<Evidence>,
    counts: map<Fingerprint, nat>,
    failureSignatures: set<(Fingerprint, Failure)>,
    pendingIds: set<CallId>,
    consumedIds: set<CallId>,
    issues: seq<Issue>,
    limits: Limits,
    last: Option<Fingerprint>,
    consecutive: nat)

  function EmptyLedger(limits: Limits): Ledger {
    Ledger(map[], [], [], map[], {}, {}, {}, [], limits, None, 0)
  }

  const DEFAULT_LIMITS := Limits(DEFAULT_MAX_TOOL_ROUNDS, DEFAULT_MAX_CONSECUTIVE_FINGERPRINTS)

  // ---- identity of a call ----

  function TrimEnd(s: Text): Text {
    if s != [] && IsSpace(s[|s| - 1]) then TrimEnd(s[..|s| - 1]) else s
  }

  function Trim(s: Text): Text {
    TrimEnd(SkipSpace(s))
  }

  /** normalizeToolArguments on argument text. */
  function NormalizeToolArguments(arguments: Text): Text {
    var trimmed := Trim(arguments);
    if trimmed == [] then [OPEN_BRACE, CLOSE_BRACE]
    else if CanonicalText(trimmed).Some? then CanonicalText(trimmed).value
    else Quote(trimmed)
  }

  function ToolCallFingerprint(name: Text, arguments: Text): Fingerprint {
    Fingerprint(Trim(name), NormalizeToolArguments(arguments))
  }

  /** Spelling, key order and number notation do not change which call it is; the value does. */
  lemma FingerprintIsMeaning(name: Text, a: Text, b: Text)
    requires Meaning(Trim(a)).Some? && Meaning(Trim(b)).Some?
    ensures ToolCallFingerprint(name, a) == ToolCallFingerprint(name, b)
            <==> SameValue(Meaning(Trim(a)).value, Meaning(Trim(b)).value)
  {
    hide Trim, Meaning, Print, SameValue;
    EmptyMeansNothing();
    CanonicalDecidesMeaning(Trim(a), Trim(b));
  }

  lemma EmptyMeansNothing()
    ensures Meaning([]) == None
  {
    assert SkipSpace([]) == [];
  }

  // ---- small counts ----

  function CallCount(calls: seq<Call>, f: Fingerprint): nat {
    if calls == [] then 0
    else CallCount(calls[..|calls| - 1], f) + if calls[|calls| - 1].fingerprint == f then 1 else 0
  }

  function CompletedCount(completed: seq<Evidence>, f: Fingerprint): nat {
    if completed == [] then 0
    else CompletedCount(completed[..|completed| - 1], f) + if completed[|completed| - 1].call.fingerprint == f then 1 else 0
  }

  /** How many calls in a row, counted from the end, carry the fingerprint f. */
  function TailRun(calls: seq<Call>, f: Fingerprint): nat {
    if calls == [] || calls[|calls| - 1].fingerprint != f then 0 else 1 + TailRun(calls[..|calls| - 1], f)
  }

  // ---- operations ----

  function AddIssue(l: Ledger, issue: Issue): Ledger {
    if issue in l.issues then l else l.(issues := l.issues + [issue])
  }

  predicate PendingWith(l: Ledger, f: Fingerprint) {
    exists id :: id in l.pendingIds && id in l.callsById && l.callsById[id].fingerprint == f
  }

  function Count(l: Ledger, f: Fingerprint): nat {
    if f in l.counts then l.counts[f] else 0
  }

  function RegisterCall(l: Ledger, id: Option<CallId>, name: Text, f: Fingerprint, actions: set<Action>): Ledger {
    if id.None? then AddIssue(l, Issue(MissingCallId, None, None))
    else if name == [] then AddIssue(l, Issue(MissingToolName, id, None))
    else if id.value in l.callsById || id.value in l.consumedIds then AddIssue(l, Issue(DuplicateCallId, id, None))
    else Limited(Entered(Reissued(l, id.value, f), Call(id.value, name, f, actions)), id.value, f)
  }

  /** The repeat checks made before the call is entered. */
  function Reissued(l: Ledger, id: CallId, f: Fingerprint): Ledger {
    if Count(l, f) >= MAX_COMPLETED_FINGERPRINT_OCCURRENCES then AddIssue(l, Issue(CompletedCallReissued, Some(id), Some(f)))
    else if PendingWith(l, f) then AddIssue(l, Issue(DuplicatePendingCall, Some(id), Some(f)))
    else l
  }

  function Entered(l: Ledger, call: Call): Ledger {
    l.(callsById := l.callsById[call.id := call],
       calls := l.calls + [call],
       pendingIds := l.pendingIds + {call.id},
       consecutive := if l.last == Some(call.fingerprint) then l.consecutive + 1 else 1,
       last := Some(call.fingerprint))
  }

  /** The limit checks made after the call is entered. */
  function Limited(l: Ledger, id: CallId, f: Fingerprint): Ledger {
    var m := if l.consecutive > l.limits.maxConsecutiveFingerprints
             then AddIssue(l, Issue(ConsecutiveFingerprintLimit, Some(id), Some(f))) else l;
    if |m.calls| > m.limits.maxToolRounds then AddIssue(m, Issue(ToolRoundLimit, Some(id), Some(f))) else m
  }

  function ConsumeResult(l: Ledger, id: Option<CallId>, failed: bool, failure: Failure): Ledger {
    if id.None? then AddIssue(l, Issue(MissingCallId, None, None))
    else if id.value in l.consumedIds then AddIssue(l, Issue(CallIdAlreadyConsumed, id, None))
    else if id.value !in l.callsById || id.value !in l.pendingIds then AddIssue(l, Issue(UnknownCallId, id, None))
    else Completed(if failed then Failing(l, l.callsById[id.value], failure) else l, l.callsById[id.value], failed, failure)
  }

  function Failing(l: Ledger, call: Call, failure: Failure): Ledger {
    var signature := (call.fingerprint, failure);
    var m := if signature in l.failureSignatures
             then AddIssue(l, Issue(RepeatedFailure, Some(call.id), Some(call.fingerprint))) else l;
    m.(failureSignatures := m.failureSignatures + {signature})
  }

  function Completed(l: Ledger, call: Call, failed: bool, failure: Failure): Ledger {
    l.(pendingIds := l.pendingIds - {call.id},
       consumedIds := l.consumedIds + {call.id},
       counts := l.counts[call.fingerprint := Count(l, call.fingerprint) + 1],
       completed := l.completed + [Evidence(call, failed, if failed then Some(failure) else None)])
  }

  function Pending(l: Ledger): seq<Call> {
    PendingOf(l.calls, l.pendingIds)
  }

  function PendingOf(calls: seq<Call>, ids: set<CallId>): seq<Call> {
    if calls == [] then []
    else PendingOf(calls[..|calls| - 1], ids) + if calls[|calls| - 1].id in ids then [calls[|calls| - 1]] else []
  }

  /** finish keeps exactly the calls still waiting for a result. */
  lemma {:induction false} PendingIsFilter(calls: seq<Call>, ids: set<CallId>)
    ensures forall c :: c in PendingOf(calls, ids) <==> c in calls && c.id in ids
  {
    if calls != [] {
      var n := |calls| - 1;
      PendingIsFilter(calls[..n], ids);
      assert calls == calls[..n] + [calls[n]];
    }
  }

  // ---- the invariant ----

  /** Every call id is entered once, under a tool name, and is either pending or consumed. */
  ghost predicate CallsIndexed(l: Ledger) {
    && (forall i :: 0 <= i < |l.calls| ==> l.calls[i].name != [])
    && (forall i :: 0 <= i < |l.calls| ==> l.calls[i].id in l.callsById && l.callsById[l.calls[i].id] == l.calls[i])
    && (forall i, j :: 0 <= i < j < |l.calls| ==> l.calls[i].id != l.calls[j].id)
    && (forall id :: id in l.callsById ==> l.callsById[id] in l.calls && l.callsById[id].id == id)
    && l.pendingIds + l.consumedIds == l.callsById.Keys
    && l.pendingIds !! l.consumedIds
  }

  /** Every consumed id has one completed record, and nothing else has. */
  ghost predicate ResultsIndexed(l: Ledger) {
    && (forall i :: 0 <= i < |l.completed| ==> l.completed[i].call.id in l.consumedIds && l.completed[i].call in l.calls)
    && (forall i, j :: 0 <= i < j < |l.completed| ==> l.completed[i].call.id != l.completed[j].call.id)
    && (forall id :: id in l.consumedIds ==> exists i :: 0 <= i < |l.completed| && l.completed[i].call.id == id)
  }

  /** The counts are the multiplicities of the completed fingerprints. */
  ghost predicate CountsExact(l: Ledger) {
    forall f :: Count(l, f) == CompletedCount(l.completed, f)
  }

  /** Registration never counts a longer repetition than the call list shows. */
  ghost predicate RunBounded(l: Ledger) {
    if l.last.None? then l.consecutive == 0 else l.consecutive <= TailRun(l.calls, l.last.value)
  }

  ghost predicate Inv(l: Ledger) {
    CallsIndexed(l) && ResultsIndexed(l) && CountsExact(l) && RunBounded(l)
  }

  lemma EmptyInv(limits: Limits)
    ensures Inv(EmptyLedger(limits))
  {}

  lemma TailRunAppend(calls: seq<Call>, c: Call, f: Fingerprint)
    ensures TailRun(calls + [c], f) == if c.fingerprint == f then TailRun(calls, f) + 1 else 0
  {
    assert (calls + [c])[..|calls|] == calls;
  }

  lemma CompletedCountAppend(completed: seq<Evidence>, e: Evidence, f: Fingerprint)
    ensures CompletedCount(completed + [e], f) == CompletedCount(completed, f) + if e.call.fingerprint == f then 1 else 0
  {
    assert (completed + [e])[..|completed|] == completed;
  }

  lemma CallCountAppend(calls: seq<Call>, c: Call, f: Fingerprint)
    ensures CallCount(calls + [c], f) == CallCount(calls, f) + if c.fingerprint == f then 1 else 0
  {
    assert (calls + [c])[..|calls|] == calls;
  }

  /** Issues are the only thing an issue changes. */
  lemma IssueKeepsInv(l: Ledger, issue: Issue)
    requires Inv(l)
    ensures Inv(AddIssue(l, issue))
  {
    hide TailRun, CompletedCount;
  }

  lemma EnteredKeepsInv(l: Ledger, call: Call)
    requires Inv(l) && call.id !in l.callsById && call.name != []
    ensures Inv(Entered(l, call))
  {
    hide TailRun, CompletedCount;
    TailRunAppend(l.calls, call, call.fingerprint);
    var m := Entered(l, call);
    assert CallsIndexed(m);
    assert ResultsIndexed(m);
  }

  lemma CompletedKeepsCounts(l: Ledger, call: Call, failed: bool, failure: Failure)
    requires CountsExact(l)
    ensures CountsExact(Completed(l, call, failed, failure))
  {
    hide CompletedCount;
    var m := Completed(l, call, failed, failure);
    forall f ensures Count(m, f) == CompletedCount(m.completed, f) {
      assert Count(l, f) == CompletedCount(l.completed, f);
      CompletedCountAppend(l.completed, m.completed[|l.completed|], f);
    }
  }

  lemma CompletedKeepsResults(l: Ledger, call: Call, failed: bool, failure: Failure)
    requires ResultsIndexed(l) && call in l.calls && call.id !in l.consumedIds
    ensures ResultsIndexed(Completed(l, call, failed, failure))
  {
    var m := Completed(l, call, failed, failure);
    forall id | id in m.consumedIds ensures exists i :: 0 <= i < |m.completed| && m.completed[i].call.id == id {
      if id == call.id {
        assert m.completed[|l.completed|].call.id == id;
      } else {
        var i :| 0 <= i < |l.completed| && l.completed[i].call.id == id;
        assert m.completed[i].call.id == id;
      }
    }
  }

  lemma CompletedKeepsCalls(l: Ledger, call: Call, failed: bool, failure: Failure)
    requires CallsIndexed(l) && call.id in l.pendingIds
    ensures CallsIndexed(Completed(l, call, failed, failure))
  {}

  lemma CompletedKeepsInv(l: Ledger, call: Call, failed: bool, failure: Failure)
    requires Inv(l) && call in l.calls && call.id in l.pendingIds
    ensures Inv(Completed(l, call, failed, failure))
  {
    hide TailRun, CountsExact, ResultsIndexed;
    assert call.id !in l.consumedIds;
    CompletedKeepsCalls(l, call, failed, failure);
    CompletedKeepsCounts(l, call, failed, failure);
    CompletedKeepsResults(l, call, failed, failure);
  }

  lemma RegisterKeepsInv(l: Ledger, id: Option<CallId>, name: Text, f: Fingerprint, actions: set<Action>)
    requires Inv(l)
    ensures Inv(RegisterCall(l, id, name, f, actions))
  {
    hide Inv, Entered, AddIssue;
    forall issue, m | Inv(m) ensures Inv(AddIssue(m, issue)) {
      IssueKeepsInv(m, issue);
    }
    if id.Some? && name != [] && id.value !in l.callsById && id.value !in l.consumedIds {
      var r := Reissued(l, id.value, f);
      IssueFrame(l, Issue(CompletedCallReissued, Some(id.value), Some(f)));
      IssueFrame(l, Issue(DuplicatePendingCall, Some(id.value), Some(f)));
      EnteredKeepsInv(r, Call(id.value, name, f, actions));
    }
  }

  lemma IssueFrame(l: Ledger, issue: Issue)
    ensures AddIssue(l, issue).callsById == l.callsById
  {}

  lemma ConsumeKeepsInv(l: Ledger, id: Option<CallId>, failed: bool, failure: Failure)
    requires Inv(l)
    ensures Inv(ConsumeResult(l, id, failed, failure))
  {
    hide Inv, Completed, AddIssue, CallsIndexed;
    forall issue, m | Inv(m) ensures Inv(AddIssue(m, issue)) {
      IssueKeepsInv(m, issue);
    }
    if id.Some? && id.value in l.callsById && id.value in l.pendingIds {
      var call := l.callsById[id.value];
      IdOfCall(l, id.value);
      var m := if failed then Failing(l, call, failure) else l;
      FailingKeepsInv(l, call, failure);
      CompletedKeepsInv(m, call, failed, failure);
    }
  }

  lemma IdOfCall(l: Ledger, id: CallId)
    requires Inv(l) && id in l.callsById
    ensures l.callsById[id].id == id && l.callsById[id] in l.calls
  {}

  lemma FailingKeepsInv(l: Ledger, call: Call, failure: Failure)
    requires Inv(l)
    ensures var m := Failing(l, call, failure);
            Inv(m) && m.(issues := l.issues, failureSignatures := l.failureSignatures) == l
  {
    hide TailRun, CompletedCount;
  }

  /** Ids are consumed once: a second result for an id changes nothing but the issues. */
  lemma SecondResultRejected(l: Ledger, id: CallId, failed: bool, failure: Failure, failed2: bool, failure2: Failure)
    requires Inv(l) && id in l.pendingIds
    ensures var once := ConsumeResult(l, Some(id), failed, failure);
            var twice := ConsumeResult(once, Some(id), failed2, failure2);
            id in once.consumedIds && twice == once.(issues := twice.issues)
            && Issue(CallIdAlreadyConsumed, Some(id), None) in twice.issues
  {
    IdOfCall(l, id);
  }
}

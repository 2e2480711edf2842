/**
 * The lossy snapshot of a ledger's completed calls that is kept between turns, and the
 * reload of such a snapshot into a fresh ledger.
 */
module LedgerSnapshot {
  import opened Common
  import opened Decimals
  import opened ToolLedger

  const DEFAULT_SNAPSHOTS := 32

  datatype Entry = Entry(name: Text, fingerprint: Fingerprint, failed: bool, count: int, failures: seq<Failure>, actions: set<Action>)

  // ---- taking the snapshot ----

  function Find(entries: seq<Entry>, f: Fingerprint): (r: Option<Entry>)
    ensures r.Some? ==> r.value in entries && r.value.fingerprint == f
    ensures r.None? ==> forall e :: e in entries ==> e.fingerprint != f
  {
    if entries == [] then None
    else if entries[0].fingerprint == f then Some(entries[0])
    else Find(entries[1..], f)
  }

  function Without(entries: seq<Entry>, f: Fingerprint): (r: seq<Entry>)
    ensures forall e :: e in r <==> e in entries && e.fingerprint != f
  {
    if entries == [] then []
    else if entries[0].fingerprint == f then Without(entries[1..], f)
    else [entries[0]] + Without(entries[1..], f)
  }

  /** The two newest distinct failures. */
  function AddFailure(failures: seq<Failure>, failure: Option<Failure>): seq<Failure> {
    if failure.None? || failure.value in failures then LastOf(failures, 2) else LastOf(failures + [failure.value], 2)
  }

  function LastOf<T>(s: seq<T>, n: nat): (r: seq<T>)
    ensures |r| == if |s| <= n then |s| else n
    ensures |r| <= |s| && r == s[|s| - |r|..]
  {
    if |s| <= n then s else s[|s| - n..]
  }

  function Merged(previous: Option<Entry>, item: Evidence): Entry {
    Entry(
      item.call.name,
      item.call.fingerprint,
      (previous.Some? && previous.value.failed) || item.failed,
      Min(HARD_MAX_TOOL_ROUNDS, (if previous.Some? then previous.value.count else 0) + 1),
      AddFailure(if previous.Some? then previous.value.failures else [], item.failure),
      (if previous.Some? then previous.value.actions else {}) + item.call.actions)
  }

  /** One entry per fingerprint, the most recently completed last. */
  function Summaries(completed: seq<Evidence>): seq<Entry> {
    if completed == [] then []
    else
      var n := |completed| - 1;
      var before := Summaries(completed[..n]);
      var f := completed[n].call.fingerprint;
      Without(before, f) + [Merged(Find(before, f), completed[n])]
  }

  function SnapshotLimit(maximum: nat): nat {
    if maximum == 0 then DEFAULT_SNAPSHOTS else Min(HARD_MAX_TOOL_ROUNDS, maximum)
  }

  function Snapshot(completed: seq<Evidence>, maximum: nat): seq<Entry> {
    LastOf(Summaries(completed), SnapshotLimit(maximum))
  }

  /** completedToolSnapshots: an insertion-ordered map, re-inserting at every completion. */
  method CompletedToolSnapshots(completed: seq<Evidence>, maximum: nat) returns (r: seq<Entry>)
    ensures r == Snapshot(completed, maximum)
  {
    hide Find, Without, Merged;
    var unique: seq<Entry> := [];
    for i := 0 to |completed|
      invariant unique == Summaries(completed[..i])
    {
      assert completed[..i + 1][..i] == completed[..i];
      var item := completed[i];
      var previous := Find(unique, item.call.fingerprint);
      unique := Without(unique, item.call.fingerprint) + [Merged(previous, item)];
    }
    assert completed[..|completed|] == completed;
    r := LastOf(unique, SnapshotLimit(maximum));
  }

  // ---- reloading ----

  function Distinct(s: seq<Failure>): (r: seq<Failure>)
    ensures forall x :: x in r ==> x in s
  {
    if s == [] then []
    else
      var front := Distinct(s[..|s| - 1]);
      if s[|s| - 1] in front then front else front + [s[|s| - 1]]
  }

  function Copies(e: Entry): (n: nat)
    ensures 1 <= n <= HARD_MAX_TOOL_ROUNDS
  {
    Min(HARD_MAX_TOOL_ROUNDS, Max(1, e.count))
  }

  function CopyCall(index: nat, k: nat, e: Entry): Call {
    Call(Persisted(index, k, e.fingerprint), e.name, e.fingerprint, e.actions)
  }

  function Copy(index: nat, k: nat, e: Entry): Evidence {
    var failures := Distinct(e.failures);
    Evidence(CopyCall(index, k, e), e.failed, if k < |failures| then Some(failures[k]) else None)
  }

  function AddCopy(l: Ledger, index: nat, k: nat, e: Entry): Ledger {
    var call := CopyCall(index, k, e);
    l.(callsById := l.callsById[call.id := call],
       calls := l.calls + [call],
       consumedIds := l.consumedIds + {call.id},
       completed := l.completed + [Copy(index, k, e)])
  }

  function AddCopies(l: Ledger, index: nat, e: Entry, n: nat): Ledger {
    if n == 0 then l else AddCopy(AddCopies(l, index, e, n - 1), index, n - 1, e)
  }

  function Signatures(e: Entry): set<(Fingerprint, Failure)> {
    set x | x in Distinct(e.failures) :: (e.fingerprint, x)
  }

  function ReloadEntry(l: Ledger, index: nat, e: Entry): Ledger {
    if e.name == [] || e.fingerprint in l.counts then l
    else
      var m := AddCopies(l, index, e, Copies(e));
      m.(failureSignatures := l.failureSignatures + Signatures(e), counts := l.counts[e.fingerprint := Copies(e)])
  }

  function ReloadAll(l: Ledger, entries: seq<Entry>): Ledger {
    if entries == [] then l
    else
      var n := |entries| - 1;
      ReloadEntry(ReloadAll(l, entries[..n]), n, entries[n])
  }

  /** A fresh ledger seeded with a snapshot. */
  function Reload(entries: seq<Entry>, limits: Limits): Ledger {
    ReloadAll(EmptyLedger(limits), LastOf(entries, HARD_MAX_TOOL_ROUNDS))
  }

  // ---- a reloaded ledger is a ledger ----

  /** Ids restored so far come from entries before the index, or from this entry's first k copies. */
  ghost predicate OnlyPersisted(l: Ledger, index: nat, k: nat) {
    forall id :: id in l.callsById ==> id.Persisted? && (id.index < index || (id.index == index && id.occurrence < k))
  }

  /** m is l with k copies of one fresh entry. */
  ghost predicate Copied(l: Ledger, m: Ledger, index: nat, e: Entry, k: nat) {
    && CallsIndexed(m) && ResultsIndexed(m) && OnlyPersisted(m, index, k)
    && m == l.(callsById := m.callsById, calls := m.calls, consumedIds := m.consumedIds, completed := m.completed)
    && |m.completed| == |l.completed| + k && |m.calls| == |l.calls| + k
    && forall f :: CompletedCount(m.completed, f) == CompletedCount(l.completed, f) + if f == e.fingerprint then k else 0
  }

  lemma CopyKeepsCalls(l: Ledger, index: nat, k: nat, e: Entry)
    requires CallsIndexed(l) && OnlyPersisted(l, index, k) && e.name != []
    ensures var m := AddCopy(l, index, k, e); CallsIndexed(m) && OnlyPersisted(m, index, k + 1)
  {
    hide Copy;
    assert CopyCall(index, k, e).id !in l.callsById;
  }

  lemma CopyKeepsResults(l: Ledger, index: nat, k: nat, e: Entry)
    requires ResultsIndexed(l) && CopyCall(index, k, e).id !in l.consumedIds
    ensures ResultsIndexed(AddCopy(l, index, k, e))
  {
    hide Distinct;
    var m := AddCopy(l, index, k, e);
    var id := CopyCall(index, k, e).id;
    forall x | x in m.consumedIds ensures exists i :: 0 <= i < |m.completed| && m.completed[i].call.id == x {
      if x == id {
        assert m.completed[|l.completed|].call.id == x;
      } else {
        var i :| 0 <= i < |l.completed| && l.completed[i].call.id == x;
        assert m.completed[i].call.id == x;
      }
    }
  }

  lemma NewCopyId(l: Ledger, index: nat, k: nat, e: Entry)
    requires CallsIndexed(l) && OnlyPersisted(l, index, k)
    ensures CopyCall(index, k, e).id !in l.consumedIds
  {
    assert CopyCall(index, k, e).id !in l.callsById;
  }

  lemma {:induction false} CopiesAreCopied(l: Ledger, index: nat, e: Entry, k: nat)
    requires CallsIndexed(l) && ResultsIndexed(l) && OnlyPersisted(l, index, 0) && e.name != []
    ensures Copied(l, AddCopies(l, index, e, k), index, e, k)
  {
    hide CallsIndexed, ResultsIndexed, OnlyPersisted, CompletedCount, Distinct;
    if k > 0 {
      CopiesAreCopied(l, index, e, k - 1);
      var m := AddCopies(l, index, e, k - 1);
      CopyKeepsCalls(m, index, k - 1, e);
      NewCopyId(m, index, k - 1, e);
      CopyKeepsResults(m, index, k - 1, e);
      forall f ensures CompletedCount(AddCopy(m, index, k - 1, e).completed, f)
                       == CompletedCount(l.completed, f) + if f == e.fingerprint then k else 0 {
        CompletedCountAppend(m.completed, Copy(index, k - 1, e), f);
      }
    }
  }

  lemma ReloadEntryKeepsInv(l: Ledger, index: nat, e: Entry)
    requires Inv(l) && l.last == None && OnlyPersisted(l, index, 0)
    ensures var m := ReloadEntry(l, index, e); Inv(m) && m.last == None && OnlyPersisted(m, index + 1, 0)
    ensures ReloadEntry(l, index, e).pendingIds == l.pendingIds && ReloadEntry(l, index, e).issues == l.issues
  {
    hide CompletedCount, AddCopies, CallsIndexed, ResultsIndexed, TailRun, Signatures, Copies;
    if e.name != [] && e.fingerprint !in l.counts {
      CopiesAreCopied(l, index, e, Copies(e));
      var c := AddCopies(l, index, e, Copies(e));
      var m := ReloadEntry(l, index, e);
      CallsFrame(c, m);
      forall f ensures Count(m, f) == CompletedCount(m.completed, f) {
        assert Count(l, f) == CompletedCount(l.completed, f);
      }
    }
  }

  lemma CallsFrame(l: Ledger, m: Ledger)
    requires m == l.(failureSignatures := m.failureSignatures, counts := m.counts)
    ensures CallsIndexed(l) ==> CallsIndexed(m)
    ensures ResultsIndexed(l) ==> ResultsIndexed(m)
  {}

  lemma {:induction false} ReloadAllInv(entries: seq<Entry>, limits: Limits)
    ensures var l := ReloadAll(EmptyLedger(limits), entries);
            Inv(l) && l.last == None && OnlyPersisted(l, |entries|, 0) && l.pendingIds == {} && l.issues == []
  {
    hide Inv, ReloadEntry;
    if entries == [] {
      EmptyInv(limits);
    } else {
      var n := |entries| - 1;
      ReloadAllInv(entries[..n], limits);
      ReloadEntryKeepsInv(ReloadAll(EmptyLedger(limits), entries[..n]), n, entries[n]);
    }
  }

  /** Whatever snapshot it is given, reloading yields a sound ledger with nothing pending and no issue. */
  lemma ReloadIsSound(entries: seq<Entry>, limits: Limits)
    ensures var l := Reload(entries, limits); Inv(l) && l.pendingIds == {} && l.issues == []
  {
    hide Inv, ReloadAll;
    ReloadAllInv(LastOf(entries, HARD_MAX_TOOL_ROUNDS), limits);
  }

  // ---- what a snapshot says ----

  /** What entries written by Summaries look like. */
  predicate ValidEntry(e: Entry) {
    && e.name != [] && 1 <= e.count <= HARD_MAX_TOOL_ROUNDS
    && |e.failures| <= 2 && |e.failures| <= e.count
    && (|e.failures| == 2 ==> e.failures[0] != e.failures[1])
  }

  ghost predicate OneEach(entries: seq<Entry>) {
    forall i, j :: 0 <= i < j < |entries| ==> entries[i].fingerprint != entries[j].fingerprint
  }

  predicate Named(completed: seq<Evidence>) {
    forall i :: 0 <= i < |completed| ==> completed[i].call.name != []
  }

  /** The completions of every sound ledger are. */
  lemma LedgerIsNamed(l: Ledger)
    requires Inv(l)
    ensures Named(l.completed)
  {
    hide TailRun, CompletedCount;
    forall i | 0 <= i < |l.completed| ensures l.completed[i].call.name != [] {
      var call := l.completed[i].call;
      assert call in l.calls;
      var j :| 0 <= j < |l.calls| && l.calls[j] == call;
    }
  }

  predicate Mentions(entries: seq<Entry>, f: Fingerprint) {
    exists e :: e in entries && e.fingerprint == f
  }

  lemma {:induction false} WithoutKeepsOrder(entries: seq<Entry>, f: Fingerprint)
    requires OneEach(entries)
    ensures OneEach(Without(entries, f))
  {
    if entries != [] {
      WithoutKeepsOrder(entries[1..], f);
      var r := Without(entries, f);
      if entries[0].fingerprint != f {
        forall j | 0 < j < |r| ensures r[0].fingerprint != r[j].fingerprint {
          assert r[j] in Without(entries[1..], f);
          assert r[j] in entries[1..];
        }
      }
    }
  }

  lemma {:induction false} SummariesAreValid(completed: seq<Evidence>)
    requires Named(completed)
    ensures OneEach(Summaries(completed)) && forall e :: e in Summaries(completed) ==> ValidEntry(e)
  {
    hide Without, Find;
    if completed != [] {
      var n := |completed| - 1;
      var before := Summaries(completed[..n]);
      SummariesAreValid(completed[..n]);
      var f := completed[n].call.fingerprint;
      WithoutKeepsOrder(before, f);
      var previous := Find(before, f);
      MergedIsValid(previous, completed[n]);
      var r := Summaries(completed);
      forall i | 0 <= i < |Without(before, f)| ensures Without(before, f)[i].fingerprint != f {
        assert Without(before, f)[i] in Without(before, f);
      }
    }
  }

  lemma MergedIsValid(previous: Option<Entry>, item: Evidence)
    requires item.call.name != [] && (previous.Some? ==> ValidEntry(previous.value))
    ensures ValidEntry(Merged(previous, item))
  {
    hide AddFailure;
    FailuresStayValid(if previous.Some? then previous.value.failures else [], item.failure);
  }

  lemma FailuresStayValid(fs: seq<Failure>, failure: Option<Failure>)
    requires |fs| <= 2 && (|fs| == 2 ==> fs[0] != fs[1])
    ensures var r := AddFailure(fs, failure); |r| <= 2 && |r| <= |fs| + 1 && (|r| == 2 ==> r[0] != r[1])
  {
    if failure.Some? && failure.value !in fs {
      var r := fs + [failure.value];
      assert |fs| == 2 ==> LastOf(r, 2) == [fs[1], failure.value];
      assert |fs| < 2 ==> LastOf(r, 2) == r;
    }
  }

  /** The entry for f counts its completions, capped. */
  lemma {:induction false} SummaryCounts(completed: seq<Evidence>, f: Fingerprint)
    requires Named(completed)
    ensures var e := Find(Summaries(completed), f); var c := CompletedCount(completed, f);
            if c == 0 then e == None else e.Some? && e.value.count == Min(HARD_MAX_TOOL_ROUNDS, c)
  {
    hide Without, Find, Summaries, CompletedCount, Merged;
    if completed == [] {
      EmptySummaries();
      FindNone([], f);
    } else {
      var n := |completed| - 1;
      var before := Summaries(completed[..n]);
      var g := completed[n].call.fingerprint;
      SummaryCounts(completed[..n], f);
      var e := Merged(Find(before, g), completed[n]);
      MergedCount(Find(before, g), completed[n]);
      FindAfterUpsert(before, g, e, f);
      UnfoldSummaries(completed);
      UnfoldCount(completed, f);
    }
  }

  lemma MergedCount(previous: Option<Entry>, item: Evidence)
    ensures var e := Merged(previous, item);
            e.fingerprint == item.call.fingerprint
            && e.count == Min(HARD_MAX_TOOL_ROUNDS, (if previous.Some? then previous.value.count else 0) + 1)
  {}

  lemma UnfoldSummaries(completed: seq<Evidence>)
    requires completed != []
    ensures var n := |completed| - 1; var g := completed[n].call.fingerprint; var before := Summaries(completed[..n]);
            Summaries(completed) == Without(before, g) + [Merged(Find(before, g), completed[n])]
  {}

  lemma UnfoldCount(completed: seq<Evidence>, f: Fingerprint)
    requires completed != []
    ensures var n := |completed| - 1;
            CompletedCount(completed, f) == CompletedCount(completed[..n], f) + if completed[n].call.fingerprint == f then 1 else 0
  {}

  lemma FindNone(entries: seq<Entry>, f: Fingerprint)
    requires forall e :: e in entries ==> e.fingerprint != f
    ensures Find(entries, f) == None
  {}

  lemma FindHead(e: Entry, entries: seq<Entry>, f: Fingerprint)
    ensures Find([e] + entries, f) == if e.fingerprint == f then Some(e) else Find(entries, f)
  {
    assert ([e] + entries)[1..] == entries;
  }

  lemma {:induction false} FindAfterUpsert(entries: seq<Entry>, g: Fingerprint, e: Entry, f: Fingerprint)
    requires e.fingerprint == g
    ensures Find(Without(entries, g) + [e], f) == if f == g then Some(e) else Find(entries, f)
  {
    hide Find;
    if entries == [] {
      FindHead(e, [], f);
      FindNone([], f);
      assert [] + [e] == [e] + [];
    } else {
      FindAfterUpsert(entries[1..], g, e, f);
      var tail := Without(entries[1..], g) + [e];
      FindHead(entries[0], entries[1..], f);
      FindHead(entries[0], tail, f);
      assert [entries[0]] + entries[1..] == entries;
      if entries[0].fingerprint != g {
        assert Without(entries, g) + [e] == [entries[0]] + tail;
      }
    }
  }

  // ---- what reloading a snapshot and taking it again gives ----

  /** The completed records of a reload, entry by entry. */
  function CopiesOf(index: nat, e: Entry, n: nat): seq<Evidence> {
    if n == 0 then [] else CopiesOf(index, e, n - 1) + [Copy(index, n - 1, e)]
  }

  function CompletedOf(entries: seq<Entry>): seq<Evidence> {
    if entries == [] then []
    else
      var n := |entries| - 1;
      CompletedOf(entries[..n]) + CopiesOf(n, entries[n], Copies(entries[n]))
  }

  lemma {:induction false} AddCopiesCompleted(l: Ledger, index: nat, e: Entry, k: nat)
    ensures AddCopies(l, index, e, k).completed == l.completed + CopiesOf(index, e, k)
    ensures AddCopies(l, index, e, k).counts == l.counts
  {
    hide Copy;
    if k > 0 {
      AddCopiesCompleted(l, index, e, k - 1);
      assert l.completed + CopiesOf(index, e, k) == l.completed + CopiesOf(index, e, k - 1) + [Copy(index, k - 1, e)];
    }
  }

  lemma {:induction false} ReloadCompleted(entries: seq<Entry>, limits: Limits)
    requires OneEach(entries) && forall e :: e in entries ==> ValidEntry(e)
    ensures var l := ReloadAll(EmptyLedger(limits), entries);
            l.completed == CompletedOf(entries) && forall f :: f in l.counts <==> Mentions(entries, f)
  {
    hide Copies, CopiesOf, AddCopies, Signatures, ValidEntry;
    if entries != [] {
      var n := |entries| - 1;
      var e, front := entries[n], entries[..n];
      ReloadCompleted(front, limits);
      var l := ReloadAll(EmptyLedger(limits), front);
      assert e in entries;
      assert ValidEntry(e) ==> e.name != [] by { NamedEntry(e); }
      assert !Mentions(front, e.fingerprint);
      AddCopiesCompleted(l, n, e, Copies(e));
      assert entries == front + [e];
      forall f ensures Mentions(entries, f) <==> Mentions(front, f) || e.fingerprint == f {
        if Mentions(front, f) {
          var d :| d in front && d.fingerprint == f;
          assert d in entries;
        }
      }
    }
  }

  lemma NamedEntry(e: Entry)
    ensures ValidEntry(e) ==> e.name != []
  {}

  /** An entry as it stands after its first k copies were completed again. */
  function Partial(e: Entry, k: nat): Entry {
    e.(count := k, failures := if k <= |e.failures| then e.failures[..k] else e.failures)
  }

  lemma DistinctAppend(s: seq<Failure>, x: Failure)
    ensures Distinct(s + [x]) == if x in Distinct(s) then Distinct(s) else Distinct(s) + [x]
  {
    assert (s + [x])[..|s|] == s;
  }

  lemma DistinctNone()
    ensures Distinct([]) == []
  {}

  lemma DistinctPair(s: seq<Failure>)
    requires |s| <= 2 && (|s| == 2 ==> s[0] != s[1])
    ensures Distinct(s) == s
  {
    hide Distinct;
    DistinctNone();
    if |s| > 0 {
      DistinctAppend([], s[0]);
      assert [] + [s[0]] == [s[0]];
      if |s| == 2 {
        DistinctAppend([s[0]], s[1]);
        assert s == [s[0]] + [s[1]];
      } else {
        assert s == [s[0]];
      }
    }
  }

  lemma NextFailure(fs: seq<Failure>, k: nat)
    requires |fs| <= 2 && (|fs| == 2 ==> fs[0] != fs[1])
    ensures k < |fs| ==> AddFailure(fs[..k], Some(fs[k])) == fs[..k + 1]
    ensures AddFailure(fs, None) == fs
  {
    if k < |fs| {
      assert fs[..k + 1] == fs[..k] + [fs[k]];
      assert k == 1 ==> fs[..k] == [fs[0]];
      assert fs[k] !in fs[..k];
    }
  }

  lemma MergedCopy(e: Entry, index: nat, k: nat)
    requires ValidEntry(e) && k < e.count
    ensures Merged(if k == 0 then None else Some(Partial(e, k)), Copy(index, k, e)) == Partial(e, k + 1)
  {
    hide Distinct, AddFailure;
    DistinctPair(e.failures);
    NextFailure(e.failures, k);
    assert e.actions + e.actions == e.actions;
    assert {} + e.actions == e.actions;
    assert e.failures[..0] == [] && e.failures[..|e.failures|] == e.failures;
  }

  lemma SummariesAppend(done: seq<Evidence>, item: Evidence)
    ensures var before, f := Summaries(done), item.call.fingerprint;
            Summaries(done + [item]) == Without(before, f) + [Merged(Find(before, f), item)]
  {
    hide Merged, Without, Find;
    assert (done + [item])[..|done|] == done;
  }

  lemma OneMoreCopy(done: seq<Evidence>, index: nat, e: Entry, k: nat)
    ensures done + CopiesOf(index, e, k + 1) == done + CopiesOf(index, e, k) + [Copy(index, k, e)]
  {
    hide Copy;
  }

  lemma {:induction false} SummariesOfCopies(done: seq<Evidence>, index: nat, e: Entry, k: nat)
    requires ValidEntry(e) && 1 <= k <= e.count && !Mentions(Summaries(done), e.fingerprint)
    ensures Summaries(done + CopiesOf(index, e, k)) == Summaries(done) + [Partial(e, k)]
  {
    hide Merged, Copy, ValidEntry, Without, Find, Summaries, Mentions;
    OneMoreCopy(done, index, e, k - 1);
    SummariesAppend(done + CopiesOf(index, e, k - 1), Copy(index, k - 1, e));
    CopyFingerprint(index, k - 1, e);
    MergedCopy(e, index, k - 1);
    if k == 1 {
      assert done + CopiesOf(index, e, 0) == done;
      AbsentFingerprint(Summaries(done), e.fingerprint);
    } else {
      SummariesOfCopies(done, index, e, k - 1);
      LastFingerprint(Summaries(done), Partial(e, k - 1));
    }
  }

  lemma CopyFingerprint(index: nat, k: nat, e: Entry)
    ensures Copy(index, k, e).call.fingerprint == e.fingerprint
  {}

  lemma {:induction false} AbsentFingerprint(entries: seq<Entry>, f: Fingerprint)
    requires !Mentions(entries, f)
    ensures Find(entries, f) == None && Without(entries, f) == entries
  {
    if entries != [] {
      assert entries[0] in entries;
      forall e | e in entries[1..] ensures e in entries {}
      AbsentFingerprint(entries[1..], f);
    }
  }

  lemma {:induction false} LastFingerprint(entries: seq<Entry>, e: Entry)
    requires !Mentions(entries, e.fingerprint)
    ensures Find(entries + [e], e.fingerprint) == Some(e) && Without(entries + [e], e.fingerprint) == entries
  {
    if entries != [] {
      assert entries[0] in entries;
      forall d | d in entries[1..] ensures d in entries {}
      LastFingerprint(entries[1..], e);
      assert (entries + [e])[1..] == entries[1..] + [e];
    } else {
      assert [] + [e] == [e];
    }
  }

  lemma {:induction false} SummariesOfReload(entries: seq<Entry>)
    requires OneEach(entries) && forall e :: e in entries ==> ValidEntry(e)
    ensures Summaries(CompletedOf(entries)) == entries
  {
    hide Summaries, CopiesOf, ValidEntry;
    if entries != [] {
      var n := |entries| - 1;
      var e, front := entries[n], entries[..n];
      SummariesOfReload(front);
      assert e in entries;
      FullEntry(e);
      assert !Mentions(front, e.fingerprint);
      SummariesOfCopies(CompletedOf(front), n, e, Copies(e));
      assert entries == front + [e];
    } else {
      EmptySummaries();
    }
  }

  lemma EmptySummaries()
    ensures Summaries([]) == [] && forall f :: CompletedCount([], f) == 0
  {}

  lemma FullEntry(e: Entry)
    requires ValidEntry(e)
    ensures Copies(e) == e.count && Partial(e, e.count) == e
  {}

  lemma SuffixIsValid(entries: seq<Entry>, n: nat)
    requires OneEach(entries) && forall e :: e in entries ==> ValidEntry(e)
    ensures OneEach(LastOf(entries, n)) && forall e :: e in LastOf(entries, n) ==> ValidEntry(e)
  {
    hide ValidEntry;
  }

  lemma SnapshotOfReload(completed: seq<Evidence>, maximum: nat, limits: Limits)
    requires Named(completed)
    ensures var s := Snapshot(completed, maximum); Snapshot(Reload(s, limits).completed, maximum) == s
  {
    hide Summaries, ValidEntry, ReloadAll, Named;
    SummariesAreValid(completed);
    SuffixIsValid(Summaries(completed), SnapshotLimit(maximum));
    var s := Snapshot(completed, maximum);
    assert LastOf(s, HARD_MAX_TOOL_ROUNDS) == s;
    ReloadCompleted(s, limits);
    SummariesOfReload(s);
  }

  /** Persisting loses nothing twice: for every ledger, a snapshot of its reloaded snapshot is that snapshot. */
  lemma SnapshotIsStable(l: Ledger, maximum: nat, limits: Limits)
    requires Inv(l)
    ensures var s := Snapshot(l.completed, maximum); Snapshot(Reload(s, limits).completed, maximum) == s
  {
    hide Inv, Snapshot, Reload;
    LedgerIsNamed(l);
    SnapshotOfReload(l.completed, maximum, limits);
  }

  /** The fingerprints that the snapshot keeps. */
  predicate Kept(completed: seq<Evidence>, maximum: nat, f: Fingerprint) {
    Mentions(Snapshot(completed, maximum), f)
  }

  lemma CountOfReload(completed: seq<Evidence>, maximum: nat, limits: Limits, f: Fingerprint)
    requires Named(completed)
    ensures CompletedCount(Reload(Snapshot(completed, maximum), limits).completed, f)
            == if Kept(completed, maximum, f) then Min(HARD_MAX_TOOL_ROUNDS, CompletedCount(completed, f)) else 0
  {
    hide Summaries, ValidEntry, ReloadAll, Named, CompletedOf, Find;
    SummariesAreValid(completed);
    SuffixIsValid(Summaries(completed), SnapshotLimit(maximum));
    var s := Snapshot(completed, maximum);
    ReloadCompleted(s, limits);
    CountsOfReload(s, f);
    SummaryCounts(completed, f);
    if Kept(completed, maximum, f) {
      var e :| e in s && e.fingerprint == f;
      assert e in Summaries(completed);
      UniqueEntry(s, e);
      UniqueEntry(Summaries(completed), e);
    } else {
      FindNone(s, f);
    }
  }

  lemma {:induction false} UniqueEntry(entries: seq<Entry>, e: Entry)
    requires OneEach(entries) && e in entries
    ensures Find(entries, e.fingerprint) == Some(e)
  {
    if entries[0] != e {
      assert e in entries[1..];
      UniqueEntry(entries[1..], e);
    }
  }

  lemma {:induction false} CountsOfCopies(done: seq<Evidence>, index: nat, e: Entry, k: nat, f: Fingerprint)
    ensures CompletedCount(done + CopiesOf(index, e, k), f) == CompletedCount(done, f) + if e.fingerprint == f then k else 0
  {
    hide Copy, CompletedCount;
    if k == 0 {
      assert done + [] == done;
    } else {
      CountsOfCopies(done, index, e, k - 1, f);
      CopyFingerprint(index, k - 1, e);
      CompletedCountAppend(done + CopiesOf(index, e, k - 1), Copy(index, k - 1, e), f);
      assert done + CopiesOf(index, e, k) == done + CopiesOf(index, e, k - 1) + [Copy(index, k - 1, e)];
    }
  }

  lemma {:induction false} CountsOfReload(entries: seq<Entry>, f: Fingerprint)
    requires OneEach(entries) && forall e :: e in entries ==> ValidEntry(e)
    ensures CompletedCount(CompletedOf(entries), f) == var e := Find(entries, f); if e.Some? then e.value.count else 0
  {
    hide CopiesOf, Find, ValidEntry, Copies;
    if entries == [] {
      FindNone([], f);
    } else {
      var n := |entries| - 1;
      var e, front := entries[n], entries[..n];
      CountsOfReload(front, f);
      assert e in entries;
      FullEntry(e);
      CountsOfCopies(CompletedOf(front), n, e, Copies(e), f);
      assert entries == front + [e];
      if e.fingerprint == f {
        FindNone(front, f);
        UniqueEntry(entries, e);
      } else {
        FindPastEnd(front, e, f);
      }
    }
  }

  lemma {:induction false} FindPastEnd(entries: seq<Entry>, e: Entry, f: Fingerprint)
    requires e.fingerprint != f
    ensures Find(entries + [e], f) == Find(entries, f)
  {
    if entries != [] {
      FindPastEnd(entries[1..], e, f);
      assert (entries + [e])[1..] == entries[1..] + [e];
    } else {
      assert [] + [e] == [e];
    }
  }

  /** After a reload, a kept fingerprint has its completion count, capped at 512; a dropped one has none. */
  lemma CountsAfterReload(l: Ledger, maximum: nat, limits: Limits, f: Fingerprint)
    requires Inv(l)
    ensures Count(Reload(Snapshot(l.completed, maximum), limits), f)
            == if Kept(l.completed, maximum, f) then Min(HARD_MAX_TOOL_ROUNDS, Count(l, f)) else 0
  {
    hide Snapshot, Reload, Kept, CompletedCount, CallsIndexed, ResultsIndexed, RunBounded, Count;
    LedgerIsNamed(l);
    CountOfReload(l.completed, maximum, limits, f);
    ReloadIsSound(Snapshot(l.completed, maximum), limits);
    CountIsExact(l, f);
    CountIsExact(Reload(Snapshot(l.completed, maximum), limits), f);
  }

  lemma CountIsExact(l: Ledger, f: Fingerprint)
    requires Inv(l)
    ensures Count(l, f) == CompletedCount(l.completed, f)
  {
    hide Count, CompletedCount;
  }

  /** Within the bounds nothing is lost: every completion count survives exactly. */
  lemma CountsSurvive(l: Ledger, maximum: nat, limits: Limits, f: Fingerprint)
    requires Inv(l) && |Summaries(l.completed)| <= SnapshotLimit(maximum) && Count(l, f) <= HARD_MAX_TOOL_ROUNDS
    ensures Count(Reload(Snapshot(l.completed, maximum), limits), f) == Count(l, f)
  {
    hide Summaries, Reload, Find, CompletedCount, Count, Inv;
    LedgerIsNamed(l);
    CountsAfterReload(l, maximum, limits, f);
    SummaryCounts(l.completed, f);
    CountIsExact(l, f);
  }
}

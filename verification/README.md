# Verified model of the M365 gateway's state machines and kernels

A Dafny model of the gateway's stateful core, with proofs. It covers, file by file:

- **Tenant state** (`TenantModel`, `TenantMirror`, `TenantMirrorCauses`, `TenantRouting`, `TenantState`, `UpstreamGate`): the
  single active account and its epoch, the credential tables with their KV mirror, and the per-account gate. One event is one
  synchronous turn of the object; a method that awaits is several turns with any other turns between them. Claims are
  about all runs.
- **Chat session** (`Utf8`, `ChatSession`, `AliasRegistry`): leases, commits, rebinds and abandonment of the singleton row,
  the byte-bounded portable tail, and admission to the alias registry.
- **Tool ledger** (`Decimals`, `CanonicalJson`, `CanonicalReader`, `ToolLedger`, `LedgerState`, `LedgerGuard`,
  `LedgerSnapshot`, `CompletionEvidence`): exact canonical JSON, the loop-prevention ledger and its guard, the lossy
  snapshot, and the evidence check over both.
- **Exchange** (`Exchange`, `GateLifecycle`): reconnect and failover under the rule against repeated submission, and the
  cancellation fence around gates.
- **Kernels** (`ToolSchema`, `SchemaValidator`, `SchemaState`, `TaskAnchors`, `TokenEstimate`, `PromptBounds`,
  `PromptMessages`, `PromptBudget`): the bounded schema validator, reference memory, token arithmetic and prompt assembly.

Objects that the source updates in place are classes whose methods are proved to take their fields exactly where a
function of the old state says; the properties are then proved about those functions and over whole runs of them. Clocks,
random ids, network outcomes and the answers of remote objects are inputs, constrained only by what the source relies on:
fresh ids, a clock that does not run backwards, KV calls that may fail before or after taking effect.

## What turned out not to hold

Each of these is a property that the code meets only under a condition, proved with an input that shows the failure.

- **Mirror confirmation** (`src/tenant-state.ts:601-605` with `src/tenant-state.ts:1213`): the confirming delete compares
  revisions only, and a re-created account starts again at revision 1. A put still in flight from before the deletion can
  confirm the new queue row, and the mirror keeps the old credential (`TenantMirror.StaleConfirmHappens`). The mirror
  converges exactly without such a confirmation (`TenantMirror.MirrorConvergence`), which needs a deletion, or the
  replacement of the next item, while a put is in progress (`TenantMirrorCauses.StaleConfirmNeedsReplacement`).
- **Orphaned KV keys** (`src/tenant-state.ts:1189-1222`): a sign-in without object id uses the e-mail as id. If that id
  belongs to an account whose e-mail has changed since, the upsert replaces a row it did not find, with a new key, and the
  old KV entry stays (`TenantMirrorCauses.OrphanHappens`). No orphan arises exactly when no such upsert meets a mirrored
  key or a put that lands later (`TenantMirrorCauses.NoOrphansExactly`).
- **Reloaded evidence** (`src/tool-ledger.ts:663-684`): beyond 32 fingerprints the snapshot can drop an open failure, and a
  whole-task claim passes that the full ledger refuses (`CompletionEvidence.DroppedFailureHappens`). A verdict carries
  over exactly otherwise (`CompletionEvidence.ReloadedVerdictIsConservative`).
- **Bounded suffix** (`src/chat-session.ts:73`, `src/chat-session.ts:172-179`): the decoder drops a leading U+FEFF, so the
  suffix is the longest exactly when the cut does not land before one (`Utf8.MaximalUnlessMark`).
- **Unique items** (`src/tool-schema.ts:119-125`): the comparison gives up beyond 64 levels by answering "different", so
  deep repetitions pass even without `not` or `oneOf` (`SchemaValidator.DeepRepetitionAccepted`). One array's repetitions
  are overlooked exactly when all of them are that deep (`SchemaValidator.UniqueMissesDeepOnly`). For whole schemas one
  direction is proved: nothing is overaccepted while the value is nested at most 64 deep.
- **At most one submission** (`src/openai.ts:1136-1190`): only structured errors report a submission. If a result has
  arrived and the health report, the account lock or the remote call itself then fails with a message that reads like an
  account failure, the prompt is submitted again on the second account (`Exchange.HiddenSubmissionIsRepeated`). When this
  happens is exact over every script (`Exchange.SubmittedTwiceExactly`, `Exchange.AtMostOnceExactly`).
- **Gate release with an empty id** (`src/tenant-state.ts:926-935`): it matches an idle row and renews the spacing
  (`UpstreamGate.EmptyReleaseRenewsSpacing`). A lease id that was drawn never acts again once it has left the row
  (`UpstreamGate.LateReleaseIsInert`).

## Model

| member | source | states |
|---|---|---|
| TenantMirror.MirrorConvergence | src/tenant-state.ts:558-649 | along every run from an empty tenant, with KV calls that may fail or land, an account without a queue row has its current ciphertext under its key at every point, if and only if no confirmation was stale (the confirming DELETE of lines 601-605 met a row of the same revision but another key or ciphertext) |
| TenantMirror.StaleConfirmHappens | src/tenant-state.ts:581-609 | a concrete run that breaks that property: delete and re-create an account while the put of its first credential is in flight, so both incarnations are at revision 1 (line 1213) |
| TenantMirror.QueueRowsAreCurrent | src/tenant-state.ts:1213-1251 | in every reachable state a queue row belongs to an existing account and carries exactly its current revision and key |
| TenantMirrorCauses.NoOrphansExactly | src/tenant-state.ts:611-629 | along every run from an empty tenant a deleted account with no deletion row has no KV entry at any point, if and only if no upsert replaced a live row it had not found while that row's key was in KV or a put of it was in progress that landed afterwards |
| TenantMirrorCauses.ObjectIdsLeaveNoOrphans | src/tenant-state.ts:1184-1222 | a run whose sign-ins all carry an object id never leaves an orphaned KV entry, whatever is imported, deleted or flushed in between |
| TenantMirrorCauses.StaleExactly | src/tenant-state.ts:581-629 | a put in progress is for a key the tables no longer hold exactly when its account was replaced by such an upsert since the put began |
| TenantMirrorCauses.OrphanHappens | src/tenant-state.ts:1189-1222 | a concrete run that leaves an orphan: sign in by e-mail, mirror, import the account under the same e-mail in another letter case, sign in by e-mail again |
| TenantMirrorCauses.StaleConfirmNeedsReplacement | src/tenant-state.ts:601-609 | a confirmation is stale only if its account was deleted, or replaced by such an upsert, while the put was in progress |
| TenantMirror.ClobberNeedsMissingObjectId | src/tenant-state.ts:1189-1222 | an upsert replaces a row it did not find only in a sign-in without object id whose e-mail is the id of an account that now has another e-mail |
| TenantMirror.StepExact | src/tenant-state.ts:558-649 | one step from any state of the invariant keeps it, keeps convergence exactly unless it is a stale confirmation, and keeps the absence of orphans exactly unless it replaces a mirrored key or lands a put on a key no longer held |
| TenantMirror.RunInv | src/tenant-state.ts:558-649 | the invariant of tables, flights and key ownership holds in every reachable state |
| TenantRouting.SequencesStayDistinct | src/tenant-state.ts:695-700 | sequence numbers stay pairwise distinct, positive and within the counter under upsert, import and delete |
| TenantRouting.ImportKeepsOrder | src/tenant-state.ts:1371-1430 | an accepted import numbers its batch first in the order given and keeps the relative order of every other account |
| TenantRouting.EpochFencesRoute | src/tenant-state.ts:386-437 | the epoch never decreases and every change of the active account raises it, over any stretch of any run |
| TenantRouting.StaleReportChangesNoHealth | src/tenant-state.ts:793-838 | a failure report whose account or epoch no longer matches changes no health row and no account, and nothing at all while the active account is available |
| TenantRouting.AcceptedReportAdvances | src/tenant-state.ts:793-838 | an accepted report changes only the reported account's health, makes it unavailable, and leaves the route on another account one epoch later |
| TenantRouting.ReportActsAtMostOncePerEpoch | src/tenant-state.ts:793-838 | of any number of reports naming one epoch at most one acts |
| TenantRouting.NextIsCyclicSuccessor | src/tenant-state.ts:386-399 | the account listed first after a sequence number is exactly the available one fewest steps ahead on the circle of sequence numbers |
| TenantRouting.AdvanceIsCyclic | src/tenant-state.ts:423-437 | every accepted report of every run leaves the route on the cyclically next available account |
| TenantRouting.DeletionIsCyclic | src/tenant-state.ts:1471-1492 | in every run deleting the active account raises the epoch by one and leaves the route on the cyclically next available account |
| TenantState.TenantState.FirstAvailable | src/tenant-state.ts:386-399 | the first available account in cyclic order, or none, against the declarative reading |
| TenantState.TenantState.EnsureActiveAccountRoute | src/tenant-state.ts:401-421 | takes the tables exactly where the recovery step says |
| TenantState.TenantState.ReportAccountFailure | src/tenant-state.ts:793-838 | takes the tables exactly where the failure step says, branch by branch |
| TenantState.TenantState.ReportAccountSuccess | src/tenant-state.ts:840-855 | takes the tables exactly where the success step says |
| TenantState.TenantState.UpsertAccount | src/tenant-state.ts:1184-1270 | credential row, queue row, deletion row and route change as the upsert step says, including the account limit |
| TenantState.TenantState.ImportAccountMigration | src/tenant-state.ts:1371-1430 | all rows of an accepted batch in one transaction, or nothing; accepted exactly when targets are distinct and the limit allows |
| TenantState.TenantState.DeleteAccount | src/tenant-state.ts:1471-1509 | rows removed, deletion queued and the route moved on if it was active |
| TenantState.TenantState.EnqueueMirrorOperation | src/tenant-state.ts:631-634 | a flush waits behind the earlier ones of its account |
| TenantState.TenantState.BeginFlush | src/tenant-state.ts:581-630 | what a flush reads before its KV call, and which rows it drops instead when the tables no longer ask for one |
| TenantState.TenantState.SettleFlush | src/tenant-state.ts:581-649 | what a flush changes after its KV call returned or failed |
| UpstreamGate.GrantsElevenMinutesApart | src/tenant-state.ts:857-912 | along every run, two grants with no effective release between them read the clock at least eleven minutes apart |
| UpstreamGate.GrantsSpacedFromRelease | src/tenant-state.ts:857-935 | a grant after a release read the clock at least 1,000 ms after it |
| UpstreamGate.LateReleaseIsInert | src/tenant-state.ts:926-935 | in every run, once the row no longer carries a drawn lease id, released or superseded, no later release of that id changes the row |
| UpstreamGate.ReleasedAtMostOnce | src/tenant-state.ts:926-935 | in every run each lease is released effectively at most once, and never after another lease was granted |
| UpstreamGate.EmptyReleaseRenewsSpacing | src/tenant-state.ts:926-935 | a concrete run in which a release with an empty id matches the idle row and keeps the gate shut for longer |
| UpstreamGate.FirstInFirstOut | src/tenant-state.ts:857-924 | while an earlier waiter stays queued, no later one is granted |
| UpstreamGate.GateTables.StartAcquire | src/tenant-state.ts:857-865 | the turn up to the await: clock read, expired waiters deleted |
| UpstreamGate.GateTables.FinishAcquire | src/tenant-state.ts:866-912 | the turn after the await, with the clock value read before it: enrol, check the head, check the lease, grant |
| UpstreamGate.GateTables.ExpireWaiters | src/tenant-state.ts:921-924 | deletes exactly the waiters whose expiry has come, keeping the order |
| UpstreamGate.GateTables.ReleaseUpstream | src/tenant-state.ts:926-935 | the conditional update of the release |
| UpstreamGate.GateTables.CancelWaiter | src/tenant-state.ts:914-919 | removes the named waiter and nobody else |
| UpstreamGate.GateTables.ExpireUpstreamWaiters | src/tenant-state.ts:921-924 | the sweep on its own turn, with the clock never read as negative |
| ChatSession.SupersededLeaseIsInert | src/chat-session.ts:584-1053 | nothing asked for by a lease that is no longer the latest changes anything: bind, switch, rebind, merge, lock, commit, replace, release or abandon |
| ChatSession.CommitIsByLatest | src/chat-session.ts:844-907 | a commit succeeds only for the latest lease while it holds the row, and ends that hold |
| ChatSession.CommitsAtMostOnce | src/chat-session.ts:844-907 | in every run two commits that succeed are by different leases |
| ChatSession.CommittedAlwaysBound | src/chat-session.ts:488-1053 | in every reachable state a committed session has a non-empty locked account |
| ChatSession.CoordinatesHaveSource | src/chat-session.ts:488-582 | the stored coordinates an acquire hands out were written by a commit or seed with no abandonment, rebind, eviction or expiry since |
| ChatSession.TailHasSource | src/chat-session.ts:844-966 | in every reachable state the stored tail is a suffix of one handed in by a final commit, guarded replacement or seed, never text of a provisional commit |
| ChatSession.SessionStaysBounded | src/chat-session.ts:62-144 | in every reachable state anchors and tail take at most 65,536 bytes and the whole row, the fresh ids of an acquire included, at most 196,608 |
| ChatSession.FieldLimitsLeaveRoom | src/chat-session.ts:84-144 | within the field limits the aggregate cap never rejects anchors of up to 17,152 bytes |
| ChatSession.ChatSession.BoundPortable | src/chat-session.ts:122-144 | the tail to store within both caps, or the error |
| ChatSession.ChatSession.Acquire | src/chat-session.ts:488-579 | a lease with the stored coordinates exactly when they are committed, otherwise with the fresh ones; nothing when busy or over the limits; an expired row is deleted |
| ChatSession.ChatSession.BindAccount | src/chat-session.ts:584-641 | the row after binding; only by the holder, never over another account |
| ChatSession.ChatSession.SwitchUncommittedAccount | src/chat-session.ts:643-691 | fresh coordinates on the next account, only from an uncommitted unlocked row of the expected account |
| ChatSession.ChatSession.RebindCommittedAccount | src/chat-session.ts:701-773 | detaches a committed session from the expected account with fresh uncommitted coordinates |
| ChatSession.ChatSession.CommitCompleted | src/chat-session.ts:844-907 | commits coordinates, clears the pending call and the lease, keeps or replaces the tail |
| ChatSession.ChatSession.ReplaceCompletedTail | src/chat-session.ts:917-966 | replaces the tail only of the completed lease with the expected coordinates |
| ChatSession.ChatSession.AbandonTurn | src/chat-session.ts:1015-1053 | discards the turn; the tail too once it was completed; the account too when detached |
| ChatSession.ChatSession.Seed | src/chat-session.ts:1055-1153 | writes a committed alias row only where there is none |
| ChatSession.ChatSession.MergeTaskAnchors | src/chat-session.ts:775-808 | the merged references are stored only for the holder, within the caps |
| ChatSession.ChatSession.MarkAccountLocked | src/chat-session.ts:810-818 | locks only the holder's row on the named account |
| ChatSession.ChatSession.Release | src/chat-session.ts:968-981 | ends only the named hold |
| ChatSession.ChatSession.EvictResponseAlias | src/chat-session.ts:450-464 | removes the row only of that generation and only when no lease is active |
| Utf8.BoundedUtf8Suffix | src/chat-session.ts:172-179 | the byte loop computes the whole text if it fits, else its longest fitting suffix of whole code points, less a leading byte order mark |
| Utf8.MaximalUnlessMark | src/chat-session.ts:172-179 | no longer suffix would fit, exactly unless the cut lands just before U+FEFF |
| Utf8.DecodeEncoded | src/chat-session.ts:72-77 | decoding encoded text gives it back |
| AliasRegistry.RegisterKeepsBounds | src/chat-session.ts:345-413 | after every registration, successful or not, each group has at most 64 rows and the registry at most 512, with distinct aliases in ascending sequence |
| AliasRegistry.AdmittedExactly | src/chat-session.ts:363-405 | on success the survivors are exactly the old rows and the new one minus expired rows, rows beyond the newest 64 of the group and rows beyond the newest 512, in order |
| AliasRegistry.AdmittedIffVictimsGo | src/chat-session.ts:366-405 | a registration is admitted exactly when no row it would displace is busy or unreachable |
| AliasRegistry.RefusedSafely | src/chat-session.ts:392-413 | a refused registration leaves the alias out and evicted no row whose object was busy or unreachable |
| AliasRegistry.BoundsAlwaysHold | src/chat-session.ts:345-418 | after any registrations and removals in any order, whatever the victims answer, both bounds hold |
| AliasRegistry.CapacityIsNeverExceeded | src/chat-session.ts:392-397 | the capacity error is never raised |
| AliasRegistry.VictimsAre | src/chat-session.ts:366-391 | which rows the three selections pick, by position |
| AliasRegistry.AliasRegistry.RegisterResponseAlias | src/chat-session.ts:345-413 | the loop over the victims refines the registration step and keeps the bounds |
| AliasRegistry.AliasRegistry.UnregisterResponseAlias | src/chat-session.ts:328-334 | removes the row of that alias and generation, and keeps the bounds |
| TaskAnchors.MergeLosesNothingToBatching | src/task-anchors.ts:153-185 | merging into already merged references equals merging everything at once |
| TaskAnchors.MergeIsBoundedSet | src/task-anchors.ts:153-185 | at most four references, no key twice, and merging again changes nothing |
| TaskAnchors.MergeTaskAnchors | src/task-anchors.ts:153-185 | the loop with its index map, which agrees with the list at every iteration, computes the merge |
| Decimals.CanonicalJSONNumber | src/tool-ledger.ts:197-223 | the digit-stripping loop prints the normal form of the token's exact value |
| Decimals.CanonicalIsTokenOfSameValue | src/tool-ledger.ts:197-223 | the output is itself one number token of the same rational value, and canonicalising it changes nothing |
| Decimals.CanonicalDecidesEquality | src/tool-ledger.ts:197-223 | two tokens have one canonical text exactly when they are the same rational number, whatever their notation |
| Decimals.SameIffOneNormalForm | src/tool-ledger.ts:203-209 | two decimals are the same rational exactly when their normal forms coincide |
| CanonicalJson.ReadPrinted | src/tool-ledger.ts:226-317 | reading what was printed for a canonical value gives the value back and leaves what followed it (sections 4 to 7 of RFC 8259) |
| CanonicalJson.CanonicalTwice | src/tool-ledger.ts:226-317 | for texts that parse, canonicalising twice is canonicalising once |
| CanonicalJson.CanonicalDecidesMeaning | src/tool-ledger.ts:226-317 | two texts that parse have one canonical form exactly when they denote the same value: objects as maps with the last duplicate winning, numbers exact |
| CanonicalJson.CanonicalKeepsMeaning | src/tool-ledger.ts:226-317 | the canonical text of a text that parses parses to the same value |
| CanonicalJson.ReadValueIsCanonical | src/tool-ledger.ts:248-312 | whatever the parser returns has normal numbers, ordered keys and at most 128 levels |
| CanonicalJson.ReadQuoted | src/tool-ledger.ts:232-247 | a quoted string reads back as itself, whatever follows it |
| CanonicalJson.PutIsMapUpdate | src/tool-ledger.ts:287-295 | setting a key keeps the key order and is the update of the map |
| CanonicalJson.AscendingIsUnique | src/tool-ledger.ts:289-295 | a sorted member list is determined by the map it denotes |
| CanonicalReader.CanonicalJSONText | src/tool-ledger.ts:226-317 | the offset-moving parser returns the canonical text, and throws exactly where the text has no meaning |
| CanonicalReader.Reader.ParseValue | src/tool-ledger.ts:248-312 | one value at the offset: its canonical text and the new offset are what the reading function says |
| CanonicalReader.Reader.ParseElements | src/tool-ledger.ts:253-271 | the array loop |
| CanonicalReader.Reader.ParseMembers | src/tool-ledger.ts:272-299 | the object loop, its map of printed values and the final sort |
| CanonicalReader.Reader.StringValue | src/tool-ledger.ts:232-247 | the scan for the closing quote with its escape flag, then the decoding |
| CanonicalReader.SortedEntries | src/tool-ledger.ts:289-295 | the map's entries in ascending key order |
| ToolLedger.FingerprintIsMeaning | src/tool-ledger.ts:320-344 | spelling, key order and number notation of the arguments do not change a call's identity; their value does |
| ToolLedger.RegisterKeepsInv | src/tool-ledger.ts:387-455 | registration keeps the ledger invariant: ids entered once and under a tool name, calls split into pending and consumed, counts equal to the completed multiplicities |
| ToolLedger.ConsumeKeepsInv | src/tool-ledger.ts:457-503 | so does every result |
| ToolLedger.SecondResultRejected | src/tool-ledger.ts:468-471 | a second result for a consumed id changes nothing but the issues |
| LedgerState.MutableLedger.RegisterCall | src/tool-ledger.ts:387-455 | the fields change exactly as the registration step says |
| LedgerState.MutableLedger.ConsumeResult | src/tool-ledger.ts:457-503 | the fields change exactly as the result step says |
| LedgerState.MutableLedger.AddCompletedSnapshots | src/tool-ledger.ts:512-549 | the reload loops build exactly the reloaded ledger |
| LedgerGuard.GuardProposedToolCalls | src/tool-ledger.ts:690-741 | the guard's maps and running counters decide as the direct reading of each proposal against the ledger and the earlier ones |
| LedgerGuard.AllowedRaisesNoIssue | src/tool-ledger.ts:690-741 | an allowed proposal recorded under new ids raises no issue, on any sound ledger, reloaded ones included |
| LedgerGuard.GuardedRunsStaySound | src/tool-ledger.ts:387-503 | in every state of every guarded run from an empty ledger: the invariant, every call of a fingerprint either completed or pending, and the three limits |
| LedgerGuard.DefaultRunsAreBounded | src/tool-ledger.ts:690-741 | with the default limits at most 32 calls, none more than 8 times, none three times in a row |
| LedgerGuard.NoneReapprovedAfterFailure | src/tool-ledger.ts:714-718 | once its repeated failure is recorded a fingerprint is never entered again |
| LedgerSnapshot.CompletedToolSnapshots | src/tool-ledger.ts:663-684 | the re-inserting loop computes one entry per fingerprint, most recently completed last, within the limit |
| LedgerSnapshot.SnapshotIsStable | src/tool-ledger.ts:512-549 | a snapshot of a reloaded snapshot is that snapshot, for every ledger and every limit |
| LedgerSnapshot.CountsAfterReload | src/tool-ledger.ts:512-549 | after a reload a kept fingerprint has its completion count capped at 512, a dropped one none |
| LedgerSnapshot.CountsSurvive | src/tool-ledger.ts:663-684 | with no more fingerprints than the snapshot holds and at most 512 completions, counts survive exactly |
| LedgerSnapshot.ReloadIsSound | src/tool-ledger.ts:512-549 | any snapshot reloads into a sound ledger with nothing pending and no issue |
| CompletionEvidence.Summarize | src/completion-evidence.ts:310-344 | the counters and the latest outcome of every action say exactly what the ledger says |
| CompletionEvidence.ActionClaim | src/completion-evidence.ts:464-484 | an action claim is supported exactly when nothing is pending and the action's last completion succeeded |
| CompletionEvidence.EverythingClaim | src/completion-evidence.ts:412-433 | a whole-task claim is supported exactly when nothing is pending, some action other than verification succeeded last and no failure is open |
| CompletionEvidence.AllowedIffAllSupported | src/completion-evidence.ts:441-507 | an answer passes exactly when each of its claims is supported |
| CompletionEvidence.ReloadedVerdictIsConservative | src/completion-evidence.ts:441-507 | for every ledger with nothing pending, an answer allowed on the reloaded ledger is allowed on the original, exactly unless it claims everything and the snapshot dropped an open failure |
| CompletionEvidence.NothingDropped | src/tool-ledger.ts:663-684 | with no more fingerprints than the snapshot holds no open failure is dropped |
| CompletionEvidence.DroppedFailureHappens | src/completion-evidence.ts:412-433 | with 33 fingerprints a whole-task claim passes after the reload that the original refuses |
| ToolSchema.JsonEqualIsSame | src/tool-schema.ts:25-39 | the bounded comparison finds values equal exactly when they are and the left one is not nested beyond the limit |
| ToolSchema.ReferenceFollowsPath | src/tool-schema.ts:53-64 | every path of keys has a reference, and resolving it follows exactly that path (section 4 of RFC 6901) |
| ToolSchema.UnescapeEscape | src/tool-schema.ts:53-64 | any key survives escaping and unescaping |
| ToolSchema.LocalReference | src/tool-schema.ts:53-64 | the walk with its loop variable resolves references as stated |
| ToolSchema.MeaningIsConsistent | src/tool-schema.ts:66-151 | no value both satisfies and violates a schema, whatever the heights of the derivations |
| SchemaValidator.ValidateIsRight | src/tool-schema.ts:66-151 | from any counter and depth: a true answer has a derivation unless a limit or a deep comparison cut something negated, and a false one has a refutation unless something was cut at all |
| SchemaValidator.UncutVerdictIsMeaning | src/tool-schema.ts:66-151 | when neither the depth nor the node limit was reached and no value nested beyond 64 was compared, the verdict is true exactly when some derivation exists |
| SchemaValidator.UnlimitedVerdictIsMeaning | src/tool-schema.ts:66-151 | for a value nested at most 64 deep, unless the depth or the node limit was reached the verdict is true exactly when some derivation exists |
| SchemaValidator.OnlyLimitsAreHit | src/tool-schema.ts:25-39 | for a value nested at most 64 deep nothing but the depth and the node limit can cut an answer short |
| SchemaValidator.TrueVerdictHasDerivation | src/tool-schema.ts:66-151 | even with exhausted limits a true verdict has a finite derivation unless a limit or a deep comparison cut something negated |
| SchemaValidator.PlainSchemaNeverOveraccepts | src/tool-schema.ts:66-151 | whatever limits were reached, a schema without not and oneOf never accepts a value without a finite derivation, if the value is nested at most 64 deep or the schema has no uniqueItems |
| SchemaValidator.UniqueSchemaErrsOnDeepOnly | src/tool-schema.ts:119-125 | a schema that asks only for unique items accepts a value that violates it exactly when that is an array with repetitions all of which are nested beyond the limit |
| SchemaValidator.UniqueMissesDeepOnly | src/tool-schema.ts:119-125 | under any keywords, uniqueItems overlooks repetitions exactly when all repeated items are nested beyond the limit |
| SchemaValidator.DeepRepetitionAccepted | src/tool-schema.ts:119-125 | two equal items nested 65 deep are accepted |
| SchemaState.ValidationState.Validate | src/tool-schema.ts:66-151 | the recursion with the shared counter returns and counts exactly what the run says |
| SchemaState.ParametersFor | src/tool-schema.ts:152-160 | the parameters of the first tool declared under the name, any object if it has none |
| SchemaState.ValidateToolArguments | src/tool-schema.ts:162-170 | accepted exactly when the text parsed to an object and the first tool of that name accepts it, the schema being its own root |
| Exchange.RunChatHub | src/chathub.ts:897-935 | at most two connections and one submission, which the error reports exactly |
| Exchange.RunExchange | src/openai.ts:1060-1208 | the failover loop performs exactly the acts of the specification |
| Exchange.ExchangeIsBounded | src/openai.ts:1079-1208 | over every script of outcomes: at most two accounts, four connections and two submissions, and every gate given back before the next is taken |
| Exchange.SubmittedTwiceExactly | src/openai.ts:1113-1190 | over every script, the prompt is submitted twice exactly when both passes send it, the lease is neither started nor locked, another account is found before the deadline, and the first pass ended in terminal empty quota or in an unstructured failure that reads like one of the account |
| Exchange.AtMostOnceExactly | src/openai.ts:1113-1190 | empty quota apart, at most one submission holds exactly for the scripts without such an unstructured failure |
| Exchange.HiddenSubmissions | src/openai.ts:1113-1137 | which errors hide a submission: exactly a failing lock or health report after a result, or the loss of the remote call after the prompt was sent |
| Exchange.HiddenSubmissionIsRepeated | src/openai.ts:1136-1190 | without any quota failure the prompt reaches two accounts when the first result's health report fails with an account-like message |
| Exchange.StartedOrLockedStays | src/openai.ts:1238-1248 | a started or locked lease never leaves its account |
| GateLifecycle.ResolvedMeansIdle | src/upstream-lifecycle.ts:36-91 | for every interleaving of exchanges and cancels, when a cancel has resolved no exchange is under way and every attached gate was released |
| GateLifecycle.EachReleasedOnce | src/upstream-lifecycle.ts:50-58 | no gate is released upstream twice |
| GateLifecycle.NoneBeginsAfterCancel | src/upstream-lifecycle.ts:61-65 | once cancelled, the exchanges under way only become fewer |
| GateLifecycle.CancelIsNeverStuck | src/upstream-lifecycle.ts:71-91 | a cancelled stream without exchanges has resolved or can resolve |
| GateLifecycle.StepKeepsInv | src/upstream-lifecycle.ts:36-91 | every step keeps: the operation count is the exchanges under way, and each attached gate is released or held |
| GateLifecycle.UpstreamGateLifecycle.ReleaseGate | src/upstream-lifecycle.ts:50-58 | the release, upstream only the first time |
| GateLifecycle.UpstreamGateLifecycle.BeginExchange | src/upstream-lifecycle.ts:61-65 | refused once cancelled, counted otherwise |
| GateLifecycle.UpstreamGateLifecycle.AttachGate | src/upstream-lifecycle.ts:66-69 | remembers the gate even after cancellation, which it reports |
| GateLifecycle.UpstreamGateLifecycle.EndExchange | src/upstream-lifecycle.ts:71-78 | one exchange fewer, never below none |
| GateLifecycle.UpstreamGateLifecycle.StartCancel | src/upstream-lifecycle.ts:79-83 | cancels once; a later cancel changes nothing |
| GateLifecycle.UpstreamGateLifecycle.FinishCancel | src/upstream-lifecycle.ts:79-91 | what a cancel does once idle |
| PromptBounds.ChatPromptUnits | src/openai.ts:543-565 | the grouping loop computes the units |
| PromptBounds.UnitsPartition | src/openai.ts:543-565 | the units are the messages in order, each a single message or a call with results only, and no call is separated from a result that follows it |
| PromptBounds.EnsureCurrentTurnFits | src/openai.ts:828-858 | the check, against the lengths and tokens of layers and current turn |
| PromptBounds.CurrentTurnIsNeverTrimmed | src/openai.ts:701-771 | when the layers fit within their thirds, a history that passes the check yields a prompt with every layer and a suffix of the turns containing the whole current turn, never the final size error |
| PromptMessages.ChatPromptKeepsCurrentTurn | src/openai.ts:860-884 | when the layers fit within their thirds and the check passes, chatPrompt yields exactly the instruction messages, perhaps the truncation marker, and every other message from a point no later than the last user message that separates no result from its call, within both budgets and never blank |
| PromptMessages.CurrentUnit | src/openai.ts:828-858 | the unit from which the check counts is where the last user message stands |
| PromptBounds.JoinIsFree | src/openai.ts:767-770 | joining parts with blank lines costs no tokens |
| PromptBudget.ReserveTaskAnchorContext | src/task-anchors.ts:227-258 | the loop takes each reference with which the block still fits |
| PromptBudget.AnchorsAreBounded | src/task-anchors.ts:227-258 | references take at most an eighth of the characters and a sixteenth of the tokens |
| PromptBudget.WholePromptStaysWithinModel | src/openai.ts:269-286 | references, prompt and evidence together stay within the model's characters less the tools, and within min(model input limit, 96,000) minus 2,048 minus the tools' tokens |
| TokenEstimate.CountPromptTokenClasses | src/models.ts:107-127 | the loop over characters counts the classes |
| TokenEstimate.CountConcat | src/models.ts:107-127 | counting is additive wherever the cut does not fall inside a surrogate pair |
| TokenEstimate.EstimateIsSubadditive | src/models.ts:67-73 | the estimate of a concatenation is at most the sum of the estimates, wherever it is cut |
| TokenEstimate.IncrementalTokenEstimate.Add | src/request-metrics.ts:61-75 | the counters and the held surrogate always describe everything added so far |
| TokenEstimate.IncrementalTokenEstimate.Value | src/request-metrics.ts:77-89 | the capped estimate of everything added |
| TokenEstimate.EstimateChunks | src/request-metrics.ts:54-90 | feeding a text in chunks, however split, gives the capped estimate of the whole |

## Left out

- Retry delays, alarms, attempt counters and token refresh of the tenant object: a failed KV call leaves the row, and any flush may run at any time.
- KV writes that land after their call has failed, and eviction of the tenant object in the middle of a KV call.
- Legacy `kv:` credentials, schema migrations, migration nonces and receipts, login sessions, API keys and diagnostics.
- Encryption, password hashing, OAuth, SHA-256 and the egress relay: ciphertexts and hashes are opaque values, a fingerprint is the pair it identifies.
- Ties in the cyclic order are broken by id in the source; sequence numbers are proved distinct, so there are none.
- UpstreamGate: one account's rows only, without the account deletion and import steps that drop them; the waiter id syntax check, whether the account is the active one, and other accounts' waiters are not part of this model.
- ChatSession: account ids are taken as already trimmed, task anchors as their encoded text in normal form, and a ledger snapshot as text of at least two characters within its limit.
- Text with lone surrogates in the session and schema models, where strings are sequences of code points.
- When the alias registry's alarm sweep runs and whom it notifies; what it and an alias reporting its end do to the rows is modelled.
- TaskAnchors: extraction patterns and normalisation; references are in normal form, and letters fold as ASCII.
- Regular expressions that classify actions, claims and failures: what they answer is an input, and a call's actions are a function of its fingerprint where that is required.
- CompletionEvidence.Summarize: covers the records of a ledger, which always carry a `failed` flag; the unknown status and its two counters, for records without one, are not modelled.
- CompletionEvidence: the fixed replacement text and the disposition derived from the reason.
- Tool arguments that are not text (`canonicalValue`) and argument text that does not parse, whose quoted form can coincide with a JSON string.
- CanonicalReader: error kinds; where the source throws the model answers None.
- SchemaState.ValidateToolArguments: what JSON.parse makes of the text is an input.
- ToolSchema: `multipleOf`, non-finite numbers and negative zero, and inherited property names such as `constructor` as reference tokens.
- ToolSchema: a reference to a structurally equal but distinct schema counts as a reference to itself; the verdict is the same and the node count differs by one.
- Exchange: waiting in the gate queue, delays, and what the account's egress relay does.
- GateLifecycle: rejection of the release call; a release counts when it is made.
- PromptBounds: where a truncated instruction layer is cut, which is a parameter, and the unbounded default budgets.
- Responses prompts, continuation selection for previous responses, Anthropic conversion, images, attachments and the model catalogue.
- WebSocket and HTTP plumbing, SSE writers, heartbeats, request handlers, the admin pages.

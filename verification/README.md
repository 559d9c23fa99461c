# Saber harness: verified model

A Dafny model of the parts of the harness whose correctness is a property of
whole runs, with proofs. `dafny verify dfyconfig.toml` checks everything.

## What is modelled

* **Event-sourced store** (`HashChain`, `EventLog`, `EventLogProofs`, `EventLogMeaning`,
  `EventStore`, `EventLogWitnesses`, `KeyCustody`). The hash-chained log, the runs projection, the outbox, the
  idempotency table, recovery, and staged key rotation. `EventLog.Apply` is one
  transaction on values; the class `EventStore.Store` performs it step by step,
  rolls back on failure, and is proved equal to it.
* **Memory authority** (`MemoryAuthority`, `MemoryMeaning`). Revision histories, promotion,
  supersession, revocation, and queries that mark expired entries stale, against
  a reference store in which a query changes nothing.
* **Goal graph and orchestrator** (`GoalDag`, `Delegation`, `Judgment`,
  `Orchestrator`, `OrchestratorMeaning`). Depth-first cycle detection, descendants, readiness, and the
  scheduler with retries, budgets, judged reports and cascading cancellation.
* **Knowledge fabric** (`KnowledgeFabric`, `KnowledgeMeaning`, `Redaction`). Admission, three inverted
  indexes, ranked queries, revocation, and redaction of JSON fields.
* **Policy** (`Vocabulary`, `Policy`, `PolicyEnforcement`, `PolicyMeaning`). The resource grammar and
  selectors, the decision, approval grants and their ledger, and the
  enforcement point observed on a trace, under arbitrary audit and effect failures.
* **Command-line quoting** (`CommandLine`), **role expansion** (`RoleExpansion`),
  the **budgeted stream driver** (`StreamBudget`) and the **IPv4 literal parser**
  (`IpLiteral`, the forms described in section 7.4 of RFC 3986).
* Shared: `Outcomes`, `TextSplit`, `TextOrder` (the iteration order of sorted maps),
  `BigEndian`, `JsonValue`, `Sensitivity`.

Objects whose methods update fields are classes here, and each method is proved
equal to a step function on values; runs are sequences of those steps, and the
theorems are about every run. The `...Meaning` modules state what each step does over
the stored fields alone (when it succeeds, what it changes, what it never changes
again), without the functions the step is made of.

## Conventions

* SHA-256, the UTF-8 encoding, the JSON printer and parser, character classes and
  encoded lengths are parameters (`Codec`, `Env`, `TextRules`). No theorem assumes
  the hash injective: where a source comment relies on that, the lemma returns two
  byte strings and says that either the claim holds or they are a collision (for
  the log, or one of them hashes to the all-zero hash). Assumed where needed: UTF-8
  is injective (`InjectiveText`), the parser inverts the printer (`Faithful`), and
  hashed parts are shorter than the 64-bit length prefix can say (`ShortParts`).
* Outside calls that can fail (audit sink, effects, credential writes, checkpoints,
  rekeying) are inputs that say how they fail. Times are inputs.
* Strings are sequences of characters. The text form `sha256:<hex>` of a policy hash
  is represented by the hash bytes. Sorted, deduplicated vectors are sets iterated
  in `TextOrder.InOrder`.

## Where the code differs from its documentation

* `splitArgs` is documented as a left inverse of `joinArgs`. It drops empty words, so
  it is one exactly on vectors without empty words (`CommandLine.SplitUndoesJoin`).
* Role expansion documents cyclic hierarchies as refused. What is refused is a walk past
  the depth bound that meets no mapped role twice; a cycle alone is not. A refusal always
  has such a walk (`RoleExpansion.RefusalNeedsFreshWalk`), so a hierarchy of at most nine
  roles, all mapped, is accepted in every order however cyclic it is, for example two roles
  that inherit each other (`SmallMappedHierarchyIsAccepted`, `MutualInheritanceIsAccepted`),
  while a ring of ten mapped roles is refused (`LongRingIsRefused`). The condition is exact
  where nothing is left to order (`SingleLineRefusedIff`), and where every reachable role is
  mapped it says exactly which claims some order of the claim and of the parents refuses
  (`MappedRefusedInSomeOrderIff`). A walk past the bound through unmapped roles is refused in
  every order; otherwise the order can decide (`RefusalDependsOnClaimOrder`).
* The last part of a short IPv4 literal is truncated to its position instead of being
  refused when too large (`IpLiteral.LastPartFaithfulIffInRange`,
  `IpLiteral.OversizedLastPartIsTruncated`), and a plus sign is accepted in front of digits.
* Recovery is documented to rebuild a divergent projection. It fails, leaving the
  projection alone, when an artifact references a run row that the replay does not have.
  `EventLogWitnesses.StrayRowWithArtifactIsNotRepaired` reaches such tables from a store with
  one stray run row by committing an artifact for it, with every foreign key satisfied.
* Empty identifiers, empty evidence items, and core events that reuse a run or tool event
  type are committed, and then leave the tables and the replay of the log apart: the replay
  refuses the log, or yields rows the tables lack. `EventLogProofs.StepKeepsProjections` is the
  exact condition; `EventLogWitnesses` has a history for each of the three.
* A rotation that failed after rekeying, followed by another rotation without reopening,
  loses the key (`KeyCustody.RotatingAgainWithoutReopeningLosesTheKey`); `RotationSafeIff`
  is the exact condition.
* Re-admitting a live chunk identifier can leave stale postings, and a query for a lost key
  then selects the chunk as pinned (`KnowledgeFabric.ReadmissionLeavesStalePostings`);
  `StepKeepsExactIff` is the exact condition.
* A request digest does not tell a delegation on behalf of the empty identity from no
  delegation, and does not bind the request time (`Policy.DigestBindsExactly`).

## Model

| member | source | states |
|---|---|---|
| HashChain.EncodeInjective | crates/event-store/src/lib.rs:1610-1617 | The length-prefixed encoding under `digest` is injective on lists of byte strings |
| HashChain.VerifyHashChain | crates/event-store/src/lib.rs:1189-1217 | Succeeds exactly when every row links to its predecessor and carries the hash of its own fields |
| HashChain.ChainAppend | crates/event-store/src/lib.rs:1542-1574 | A log with one more row verifies exactly when the log did and the row links to its tail with the right hash |
| HashChain.TimeBytesInjective | crates/event-store/src/lib.rs:1619-1635 | The hashed two's-complement form of a 64-bit time determines the time |
| HashChain.RowDetermined | crates/event-store/src/lib.rs:1619-1635 | The hashed parts and the hash determine every field of an event row |
| HashChain.TailPinsHistory | crates/event-store/src/lib.rs:1189-1217 | Two verified logs ending in the same hash are identical event for event, or a hash collision or zero hash is exhibited |
| EventLogProofs.OnlyCommitsChange | crates/event-store/src/lib.rs:531-630 | A refused or replayed command leaves every table as it was; a committed one applies its effect once and remembers its key with the request hash |
| EventLogProofs.StepKeepsLog | crates/event-store/src/lib.rs:1542-1605 | After any command the chain verifies, event identifiers stay distinct and every remembered key names an event of the log |
| EventLogProofs.RunKeepsLog | crates/event-store/src/lib.rs:1542-1605 | The same over every run, so `verify_hash_chain` succeeds after every command |
| EventLogProofs.ReplayIsSound | crates/event-store/src/lib.rs:1645-1713 | Every run row a replay produces has a parseable state and carries a sequence number of the log |
| EventLogProofs.ProjectedEventMatters | crates/event-store/src/lib.rs:798-831 | A core event that reuses a run or tool event type changes or breaks what the log replays to |
| EventLogProofs.StepKeepsProjections | crates/event-store/src/lib.rs:531-969 | From tables equal to the replay of the log, a command leaves them so if and only if it does not commit or carries no empty identifier or evidence item and no reserved event type |
| EventLogProofs.RunKeepsProjections | crates/event-store/src/lib.rs:1645-1713 | After any run of such commands, refused ones included, the runs table is `replayed_runs` of the log and the outbox is the replay of its tool events |
| EventLogProofs.EmptyStoreHolds | crates/event-store/src/lib.rs:1341-1395 | An empty store satisfies all of these invariants |
| EventLogProofs.PendingIsUnansweredIntents | crates/event-store/src/lib.rs:944-969 | The pending outbox rows are, in order, the intents in the log without a result |
| EventLogProofs.RunKeepsKeys | crates/event-store/src/lib.rs:1576-1605 | A remembered idempotency key keeps its request hash and event over every later run |
| EventLogProofs.RepeatIsReplayed | crates/event-store/src/lib.rs:1576-1595 | Any repeat of a committed command, any number of commands later and with any event identifier or time, changes nothing and returns the original event identifier |
| EventLogProofs.RepeatsAreInvisible | crates/event-store/src/lib.rs:1576-1605 | A run with any repeats of committed commands inserted anywhere later ends in the same log and tables as the run without them, and each repeat is answered with the original event |
| EventLogProofs.SameHashSameRequest | crates/event-store/src/lib.rs:540-548 | Two requests with the same request hash are the same request, across all command kinds, or a collision is exhibited |
| EventLogProofs.ReusedKeyConflicts | crates/event-store/src/lib.rs:1576-1595 | A committed key refuses every other content for good with a conflict and leaves the tables alone, or a collision is exhibited |
| EventLogMeaning.MovesAreTransitions | crates/event-store/src/lib.rs:1789-1802 | The legal transitions are exactly nine moves between stored state names, each listed by name |
| EventLogMeaning.RunCreatedIff | crates/event-store/src/lib.rs:531-569 | A new run commits exactly when its key, identifier and event are new; it starts queued, and nothing else changes but the log and the key |
| EventLogMeaning.RunMovedIff | crates/event-store/src/lib.rs:572-638 | A transition commits exactly when stored state and target are one of the nine moves, success brings evidence and the event can be logged; the row then has that state and evidence and no other row changes |
| EventLogMeaning.TransitionRefusals | crates/event-store/src/lib.rs:572-638 | The error of every transition that does not commit, in the order of the checks |
| EventLogMeaning.ArtifactCommittedIff | crates/event-store/src/lib.rs:640-692 | An artifact commits exactly when it is labelled, its blob fits the one known under its hash, its name is new and its run exists |
| EventLogMeaning.ArtifactEffect | crates/event-store/src/lib.rs:640-692 | A committed artifact is one artifact row, one blob row and one event, and nothing else |
| EventLogMeaning.ArtifactIsDescribed | crates/event-store/src/lib.rs:640-692 | The event of an artifact names it, its run, its labels and its content |
| EventLogMeaning.ArtifactRefusals | crates/event-store/src/lib.rs:640-692 | The error of every new artifact that does not commit |
| EventLogMeaning.IntentRecordedIff | crates/event-store/src/lib.rs:725-796 | An intent commits exactly when its identifier and event are new, as one more pending row with its kind and request |
| EventLogMeaning.ResultRecordedIff | crates/event-store/src/lib.rs:886-942 | A result commits exactly when its intent is pending and its event can be logged |
| EventLogMeaning.ResultEffect | crates/event-store/src/lib.rs:886-942 | A committed result marks one pending row of the intent completed or abandoned, with the event and the result |
| EventLogMeaning.ResultRefusals | crates/event-store/src/lib.rs:886-942 | A result for nothing pending is a conflict of the outbox, told from an event that cannot be logged |
| EventLogMeaning.CoreAppendedIff | crates/event-store/src/lib.rs:798-839 | A core event commits exactly when its key and event are new, and touches no table but the log and the keys |
| EventLogMeaning.DeliveryAnswers | crates/event-store/src/lib.rs:1576-1595 | Another workspace is refused and a remembered key answered from memory, before anything else, for every command |
| EventLogMeaning.EveryHistoryMoves | crates/event-store/src/lib.rs:572-638 | Over every history no run row goes away, each changes only along the nine moves, success is entered only from running with evidence, and new rows start queued |
| EventLogMeaning.TerminalRunsStay | crates/event-store/src/lib.rs:1789-1802 | A run that succeeded, failed or was cancelled never changes again, over every history |
| EventLogMeaning.StatesAreKnown | crates/event-store/src/lib.rs:531-638 | Every row of every history from an empty store has one of the six state names |
| EventStore.ConsistentReports | crates/event-store/src/lib.rs:944-969 | When the tables are the replay of the log, the pending report succeeds and names exactly the unanswered intents, in order |
| EventStore.Store.constructor | crates/event-store/src/lib.rs:348-394 | A new store has empty tables |
| EventStore.Store.Replay | crates/event-store/src/lib.rs:1576-1595 | Looks the key up: nothing, the remembered event, or a conflict |
| EventStore.Store.AppendEvent | crates/event-store/src/lib.rs:1542-1574 | Appends one row linked to the tail, or fails on a duplicate event identifier without changing the log |
| EventStore.Store.RecordIdempotency | crates/event-store/src/lib.rs:1597-1608 | Adds exactly the key row |
| EventStore.Store.CreateRun | crates/event-store/src/lib.rs:531-569 | The whole transaction: new tables and answer are those of one step on values, all or nothing |
| EventStore.Store.TransitionRun | crates/event-store/src/lib.rs:572-638 | The same for a state transition with its legality and evidence checks |
| EventStore.Store.CommitArtifact | crates/event-store/src/lib.rs:640-692 | The same for an artifact fact and its blob row |
| EventStore.Store.RecordEffectIntent | crates/event-store/src/lib.rs:725-796 | The same for an outbox intent |
| EventStore.Store.RecordEffectResult | crates/event-store/src/lib.rs:886-942 | The same for the result of a pending intent |
| EventStore.Store.AppendCoreEvent | crates/event-store/src/lib.rs:798-839 | The same for a caller-typed event |
| EventStore.Store.ReplayedRuns | crates/event-store/src/lib.rs:1645-1713 | The loop over the log computes the replay, with the first error it meets |
| EventStore.Store.VerifyRunProjection | crates/event-store/src/lib.rs:993-1001 | Succeeds exactly when the runs table is the replay |
| EventStore.Store.RebuildRunProjection | crates/event-store/src/lib.rs:1008-1052 | Replaces the runs table by the replay, unless the replay fails or an artifact holds a stray row back, and then changes nothing |
| EventStore.Store.Recover | crates/event-store/src/lib.rs:1059-1075 | From any runs table: the log never changes; a broken or unreplayable log fails and leaves the projection; otherwise the projection ends equal to the replay and a repair is reported exactly when it differed |
| EventStore.RecoveryAfterAnyRun | crates/event-store/src/lib.rs:1059-1075 | After any run from an empty store recovery has nothing to repair and reports exactly the unanswered intents, in order |
| EventLogWitnesses.EmptyRunIdIsCommitted | crates/event-store/src/lib.rs:531-569 | A run without an identifier commits on an empty store and the replay then refuses the log |
| EventLogWitnesses.EmptyEvidenceItemIsCommitted | crates/event-store/src/lib.rs:572-638 | A transition with an empty evidence item commits and the tables are then not what the log replays to, or a collision is exhibited |
| EventLogWitnesses.ReservedCoreEventIsCommitted | crates/event-store/src/lib.rs:798-839 | A core event of a run type commits, and the replay has a run that the table lacks |
| EventLogWitnesses.StrayRowWithArtifactIsNotRepaired | crates/event-store/src/lib.rs:1008-1052 | From a store with a stray run row an artifact commits for it; all references hold and the log verifies and replays, but the rebuild is held back, or a collision is exhibited |
| KeyCustody.WriteRecord | crates/event-store/src/key_custody.rs:43-62 | The byte buffer is magic, primary key, flag and optional fallback key |
| KeyCustody.DecodeInvertsWrite | crates/event-store/src/key_custody.rs:43-88 | Decoding a written record yields its keys, current first |
| KeyCustody.DecodesExactlyRecords | crates/event-store/src/key_custody.rs:64-88 | A record is accepted exactly when it is a bare legacy key or was written for some keys |
| KeyCustody.KeyedStore.Open | crates/event-store/src/lib.rs:376-394 | Finds the database key exactly when it is among the decoded candidates |
| KeyCustody.KeyedStore.RotateDatabaseKey | crates/event-store/src/lib.rs:446-480 | The staged steps, stopping at the first reported failure, with what each failure leaves behind |
| KeyCustody.RotationKeepsSound | crates/event-store/src/lib.rs:446-480 | From a process holding the database key, a rotation failing at any step leaves that key recorded |
| KeyCustody.RotationOutcome | crates/event-store/src/lib.rs:446-480 | A rotation succeeds exactly when no step fails, and then database, record and process have the new key alone; otherwise the process keeps its key and the disk is as far as the steps got |
| KeyCustody.RunsStayOpenable | crates/event-store/src/lib.rs:376-480 | Over any openings, stops and rotations failing anywhere, with a reopening after each failed rotation, the store can always be opened |
| KeyCustody.RotationSafeIff | crates/event-store/src/lib.rs:446-480 | A rotation is safe whatever fails exactly when the session key or the replacement is the database key |
| KeyCustody.RotatingAgainWithoutReopeningLosesTheKey | crates/event-store/src/lib.rs:446-480 | The concrete run that loses the key |
| MemoryAuthority.Authority.ProposeMemory | crates/memory-authority/src/authority.rs:166-235 | The method equals one proposal step: the scope, classification, size and duplicate refusals in order, or one more candidate revision |
| MemoryAuthority.Authority.PromoteMemory | crates/memory-authority/src/authority.rs:241-296 | The method equals one promotion step |
| MemoryAuthority.Authority.Revise | crates/memory-authority/src/authority.rs:259-290 | The in-place walk supersedes every other promoted revision and records the conflicts in order |
| MemoryAuthority.Authority.RevokeMemory | crates/memory-authority/src/authority.rs:298-310 | The method revokes the entry in every history and counts a write whether or not it exists |
| MemoryAuthority.Authority.QueryMemory | crates/memory-authority/src/authority.rs:317-370 | The method's answer, stale marks and events are those of one query step |
| MemoryAuthority.MarkedIsExpired | crates/memory-authority/src/authority.rs:317-370 | Marking the collected entries one by one leaves stale exactly the expired entries the asker could see |
| MemoryAuthority.RunKeepsOk | crates/memory-authority/src/authority.rs:166-370 | Over every run: revisions are numbered from 1, entries are distinct, at most one is promoted per key, and it is not superseded |
| MemoryAuthority.RunsSimulate | crates/memory-authority/src/authority.rs:166-370 | With query times that never go back, every output equals the reference store's and the records stay related |
| MemoryAuthority.LazyExpiryIsUnobservable | crates/memory-authority/src/authority.rs:317-370 | With such times every proposal, promotion and query result is that of a store that never marks expired entries |
| MemoryAuthority.QueryIsObservableIff | crates/memory-authority/src/authority.rs:317-370 | One query changes the answer of another exactly when it marks an entry the other would still see, which needs a clock that went back |
| MemoryAuthority.AnswersAreCurrentTruth | crates/memory-authority/src/authority.rs:317-370 | After any run an answer has exactly the promoted, visible, unexpired entries asked for, and never two revisions of one key |
| MemoryMeaning.ProposalAdmittedIff | crates/memory-authority/src/authority.rs:166-235 | A proposal is admitted exactly when scope, origin, key, value, length and novelty are right, and otherwise refused for the first that is not |
| MemoryMeaning.ProposalEffect | crates/memory-authority/src/authority.rs:166-235 | An admitted proposal is one more candidate revision with all it was proposed with; a refused one changes no history |
| MemoryMeaning.ProposalChangesNoAnswer | crates/memory-authority/src/authority.rs:166-235 | After any run a proposal leaves the answer of every query as it was |
| MemoryMeaning.PromotionEffect | crates/memory-authority/src/authority.rs:241-296 | A promotion succeeds exactly on a candidate of the first key that has the identifier; the revision promoted before becomes stale, superseded and the conflict; nothing else changes |
| MemoryMeaning.PromotedIsAnswered | crates/memory-authority/src/authority.rs:241-370 | After a successful promotion in any run, a query for the key answers exactly that entry, as it was proposed, when its class is within the ceiling and it has not expired, and nothing otherwise |
| MemoryMeaning.RevocationEffect | crates/memory-authority/src/authority.rs:298-310 | A revocation marks every revision with the identifier revoked and leaves all others as they are |
| MemoryMeaning.RevokedForGood | crates/memory-authority/src/authority.rs:298-310 | Every revision that has the identifier when it is revoked is revoked in every continuation of every run |
| MemoryMeaning.RevokedIsNeverAnswered | crates/memory-authority/src/authority.rs:298-370 | No answer given after a revocation has an entry with that key and identifier, however the run goes on |
| MemoryMeaning.QueryEffect | crates/memory-authority/src/authority.rs:317-370 | A query marks stale exactly the promoted, visible, expired revisions it asks for |
| MemoryMeaning.QueryEvents | crates/memory-authority/src/authority.rs:317-370 | A query logs one event for each entry it meets expired and one for itself |
| MemoryMeaning.AnswerIsReadable | crates/memory-authority/src/authority.rs:317-370 | After any run an answer lists, in key order and one per key, exactly the entries that are promoted, at most of the ceiling class and not expired |
| MemoryMeaning.EveryRunMoves | crates/memory-authority/src/authority.rs:166-370 | Over every run histories only grow, and a revision is only ever promoted, superseded, revoked or expired, each by its own operation, keeping all it was proposed with |
| MemoryMeaning.WriteSequenceCounts | crates/memory-authority/src/authority.rs:152-156 | The write sequence counts the operations of the run that are not queries |
| Sensitivity.RankIsTheOrder | crates/policy/src/lib.rs:134-143 | The ranks order the data classes from public over internal and confidential to restricted |
| GoalDag.TopologicalIsAcyclic | crates/orchestrator/src/dag.rs:78-115 | A finished order in which dependencies come first rules out every cycle |
| GoalDag.BackEdgeIsCycle | crates/orchestrator/src/dag.rs:95-115 | Meeting a task that is being visited exhibits a task that reaches itself |
| GoalDag.Visit | crates/orchestrator/src/dag.rs:95-115 | The depth-first visit with its two sets terminates, extends a dependency-first order or finds a real cycle |
| GoalDag.DependenciesKnown | crates/orchestrator/src/dag.rs:78-93 | Accepts exactly the graphs whose dependencies are all tasks |
| GoalDag.Validate | crates/orchestrator/src/dag.rs:78-93 | Succeeds exactly when dependencies are known and no task reaches itself |
| GoalDag.New | crates/orchestrator/src/dag.rs:59-76 | Succeeds exactly for a named goal over distinct, non-empty, known, acyclic tasks, with the error of the first failed check; the graph has exactly the given tasks under their identifiers |
| GoalDag.SourceExists | crates/orchestrator/src/dag.rs:138-151 | In an acyclic graph every non-empty set of tasks has one that depends on no other of them |
| GoalDag.ReadyTasks | crates/orchestrator/src/dag.rs:138-151 | A sorted list of exactly the tasks whose dependencies are complete |
| GoalDag.ReadyTasksAreDetermined | crates/orchestrator/src/dag.rs:138-151 | No other sorted list has exactly these tasks |
| GoalDag.FindDescendants | crates/orchestrator/src/dag.rs:154-170 | The worklist computes exactly the tasks that reach the given one through dependencies |
| GoalDag.DescendantsClosed | crates/orchestrator/src/dag.rs:154-170 | The descendants of a descendant are descendants |
| Delegation.WithinIsExact | crates/orchestrator/src/delegation.rs:16-62 | A grant is accepted as within another exactly when it covers no request the other does not |
| Delegation.PrefixCovers | crates/orchestrator/src/delegation.rs:33-39 | A prefix grant covers its root, what lies below a slash after it, and nothing else |
| Delegation.AttenuatedCoversLess | crates/orchestrator/src/delegation.rs:113-141 | An attenuated list of grants covers nothing its parents do not |
| Judgment.JudgeReport | crates/orchestrator/src/judgment.rs:115-159 | The loops over declared and reported evidence give the first rejection reason in the checked order |
| Judgment.VerifiedIff | crates/orchestrator/src/judgment.rs:115-159 | Verified exactly when the report answers this delegation, comes from the assigned subagent, shows every declared item and contains nothing undeclared |
| Judgment.VerdictMeaning | crates/orchestrator/src/judgment.rs:115-159 | The verdict of every report: the first failing check in order, where evidence is an artifact with the declared digest or the declared command with exit code zero, first under its label |
| Orchestrator.ReadyIds | crates/orchestrator/src/lib.rs:80-92 | A sorted list of exactly the pending, uncancelled tasks whose dependencies are complete |
| Orchestrator.ReadyIdsAreDetermined | crates/orchestrator/src/lib.rs:80-92 | No other sorted list has exactly these tasks |
| Orchestrator.RunKeepsInv | crates/orchestrator/src/lib.rs:99-231 | In every reachable state completed work is closed under dependencies, nothing is delegated or completed before them, cancellation is closed under descendants and final, and the delegation table lists exactly the delegated tasks |
| Orchestrator.DelegatedAuthorityIsParents | crates/orchestrator/src/lib.rs:99-150 | No live delegation of any run covers a request the parent's grants do not cover |
| Orchestrator.RunOnlyAdds | crates/orchestrator/src/lib.rs:157-231 | What is completed or cancelled stays so over every continuation |
| Orchestrator.CancellationIsFinal | crates/orchestrator/src/lib.rs:220-231 | Once cancelled, a task and all its descendants are never pending, delegated or completed again |
| Orchestrator.DelegationsAreBounded | crates/orchestrator/src/lib.rs:99-207 | Over any run a task receives at most `MAX_RETRIES` delegations |
| Orchestrator.PendingWorkIsSchedulable | crates/orchestrator/src/lib.rs:80-92 | A pending task with nothing in flight or stopped below it has a ready task among itself and its dependencies |
| Orchestrator.NoDeadlock | crates/orchestrator/src/lib.rs:80-92 | Whenever a task is pending and none is delegated, failed or cancelled, `ready` is not empty |
| Orchestrator.GoalOrchestrator.constructor | crates/orchestrator/src/lib.rs:48-64 | Every task starts pending |
| Orchestrator.GoalOrchestrator.DelegateTask | crates/orchestrator/src/lib.rs:99-150 | The method equals one delegation step, refusals included |
| Orchestrator.GoalOrchestrator.SubmitReport | crates/orchestrator/src/lib.rs:157-207 | The method equals one judged report: completion, retry or terminal failure |
| Orchestrator.GoalOrchestrator.ExhaustBudget | crates/orchestrator/src/lib.rs:210-217 | The method fails exactly the named task, drops its delegation and touches no other |
| Orchestrator.GoalOrchestrator.Cancel | crates/orchestrator/src/lib.rs:220-231 | The method cancels the task and its descendants and returns them |
| OrchestratorMeaning.ReadyMeaning | crates/orchestrator/src/lib.rs:80-92 | In every reachable state the ready tasks are exactly the pending ones whose dependencies are all completed |
| OrchestratorMeaning.DelegationMeaning | crates/orchestrator/src/lib.rs:99-150 | In every reachable state a delegation is refused for the first reason that applies, without effect, or hands out exactly what was asked with three retries less those used |
| OrchestratorMeaning.ReportMeaning | crates/orchestrator/src/lib.rs:157-207 | An acceptable report completes the task; any other ends the delegation, costs one retry, and leaves the task pending, or failed at the third |
| OrchestratorMeaning.CancellationMeaning | crates/orchestrator/src/lib.rs:220-231 | Cancelling a task in any reachable state cancels it and all that depend on it, undelegated and not ready, and touches no other task |
| OrchestratorMeaning.CancelledForGood | crates/orchestrator/src/lib.rs:220-231 | In every continuation nothing cancelled that way is pending, delegated or completed |
| OrchestratorMeaning.RadiusMeaning | crates/orchestrator/src/lib.rs:220-231 | The returned radius is the task itself and the tasks that reach it |
| OrchestratorMeaning.ExhaustionMeaning | crates/orchestrator/src/lib.rs:210-217 | Exhausting a budget fails that task, withdraws its delegation and touches no other task |
| OrchestratorMeaning.ExhaustedForGood | crates/orchestrator/src/lib.rs:210-217 | An exhausted task is never pending, delegated or completed again |
| OrchestratorMeaning.CompletionHasEvidence | crates/orchestrator/src/lib.rs:157-207 | Every completed task of every run was completed by a report of the delegated subagent with all the declared evidence |
| KnowledgeFabric.PathsAreWalks | crates/context-engine/src/label.rs:195-225 | The key paths are exactly the spellings of walks to members, stepping through arrays |
| KnowledgeFabric.AddPostings | crates/context-engine/src/fabric.rs:161-188 | The insertion loop adds the identifier under every key and changes nothing else |
| KnowledgeFabric.RemovePostings | crates/context-engine/src/fabric.rs:573-580 | The removal loop takes the identifier out under every key and drops emptied keys |
| KnowledgeFabric.AdmittedIndexIsExactIff | crates/context-engine/src/fabric.rs:161-188 | Admission keeps an exact index exact if and only if the identifier is new or no key of the replaced chunk is lost |
| KnowledgeFabric.RevokedIndexIsExact | crates/context-engine/src/fabric.rs:191-209 | Revocation keeps an exact index exact |
| KnowledgeFabric.StepKeepsExactIff | crates/context-engine/src/fabric.rs:161-257 | A command keeps all three indexes equal to a rebuild if and only if it loses no key of a live chunk it replaces |
| KnowledgeFabric.RunKeepsExact | crates/context-engine/src/fabric.rs:161-257 | After any run without a lost key each index equals what `rebuild_indexes` would build |
| KnowledgeFabric.RunKeepsLabels | crates/context-engine/src/label.rs:277-291 | Over every run each chunk is filed under its own identifier with a label that vouches for its content, and revocations accumulate |
| KnowledgeFabric.ExactHits | crates/context-engine/src/fabric.rs:305-337 | Over exact indexes the hits are exactly the chunks that have something requested, or all of them when nothing is |
| KnowledgeFabric.QueryIsScan | crates/context-engine/src/fabric.rs:305-468 | Over exact indexes a query gives the selections, order, cut-off, exclusions and events of a plain scan |
| KnowledgeFabric.EveryQueryIsScan | crates/context-engine/src/fabric.rs:161-468 | When no admission loses a key of a live chunk, every query of every run is such a scan |
| KnowledgeFabric.EveryQueryIsScanWithoutReadmission | crates/context-engine/src/fabric.rs:161-468 | In particular without any re-admission of a live identifier |
| KnowledgeFabric.PinnedIffUnmatched | crates/context-engine/src/fabric.rs:377-407 | A chunk is given as pinned exactly when it has nothing the request names |
| KnowledgeFabric.ExactQueriesPinNothing | crates/context-engine/src/fabric.rs:305-468 | Over exact indexes a query that names something selects no chunk as pinned |
| KnowledgeFabric.StalePostingIsPinned | crates/context-engine/src/fabric.rs:305-468 | A posting left behind makes a query select, as pinned, a chunk that lacks what was asked, where a scan selects nothing |
| KnowledgeFabric.ReadmissionLeavesStalePostings | crates/context-engine/src/fabric.rs:161-188 | The concrete admissions after which an index differs from a rebuild and a query from a scan |
| KnowledgeFabric.BestAreSelected | crates/context-engine/src/fabric.rs:410-421 | Selections are ranked by reasons then identifier, as many as the limit allows, and no candidate left out precedes one chosen |
| KnowledgeFabric.SelectionsAreAdmissible | crates/context-engine/src/fabric.rs:338-376 | Whatever the indexes say, every selection is a live chunk of the asking scope that passes every gate, shown redacted |
| KnowledgeFabric.RevocationIsFinal | crates/context-engine/src/fabric.rs:191-209 | A revoked chunk is never selected again, even after its identifier is re-admitted |
| KnowledgeFabric.RedactablePathsAreIndexed | crates/context-engine/src/label.rs:195-225 | A field path that redaction can reach is a key path of the structured index |
| KnowledgeFabric.Fabric.AdmitContent | crates/context-engine/src/fabric.rs:161-188 | The method equals one admission step, refusals included |
| KnowledgeFabric.Fabric.RevokeChunk | crates/context-engine/src/fabric.rs:191-209 | The method equals one revocation step, a no-op for unknown identifiers |
| KnowledgeFabric.Fabric.ExcludeChunk | crates/context-engine/src/fabric.rs:212-218 | The method excludes the identifier and logs it |
| KnowledgeFabric.Fabric.RebuildIndexes | crates/context-engine/src/fabric.rs:227-257 | The loop over all chunks builds, for each channel, under every key the chunks that have it |
| KnowledgeFabric.Fabric.QueryChunks | crates/context-engine/src/fabric.rs:305-468 | The method equals one query step over its current indexes |
| KnowledgeFabric.Fabric.Sift | crates/context-engine/src/fabric.rs:338-405 | Every live hit is either excluded with the first gate that shuts it out or kept with all its reasons |
| KnowledgeMeaning.PiecesAreWords | crates/context-engine/src/fabric.rs:582-592 | Splitting text yields exactly the maximal runs of word characters, by positions |
| KnowledgeMeaning.KeysAreWords | crates/context-engine/src/label.rs:166-225 | A keyword key is a run of at least two bytes of the text with ASCII capitals made small; a symbol one of at least three bytes in its own case that starts with a letter; a path key a walk through the value |
| KnowledgeMeaning.ReasonsMeaning | crates/context-engine/src/fabric.rs:377-407 | The reasons are one for each requested term, then symbol, then path the chunk has, in request order, or just pinned |
| KnowledgeMeaning.GateIff | crates/context-engine/src/fabric.rs:338-376 | The gates by the fields of label and request: a chunk passes when none is shut, and is excluded for the first that is |
| KnowledgeMeaning.QueryGivesTop | crates/context-engine/src/fabric.rs:305-468 | Over exact indexes a query selects the eligible chunks with most reasons, ties by identifier, up to the limit, each with its label, first reason and redacted content |
| KnowledgeMeaning.ExclusionsMeaning | crates/context-engine/src/fabric.rs:338-376 | Over exact indexes the exclusions are, in order, exactly the answering chunks that some gate shuts out, each with the first |
| KnowledgeMeaning.AskedWordIsSelected | crates/context-engine/src/fabric.rs:312-386 | After any run without a lost key a chunk with the asked word, in whatever ASCII case, that no gate shuts out is selected as a match when the limit allows |
| KnowledgeMeaning.RedactedIsShown | crates/context-engine/src/fabric.rs:534-571 | What is shown of a chunk: text as it is; of a structured value, paths above the ceiling masked and reported, unrelated paths intact |
| KnowledgeMeaning.AdmittedIff | crates/context-engine/src/label.rs:277-291 | A chunk is admitted exactly when it is labelled and its label has the digest of its content, with the first refusal otherwise, and only its own entry changes |
| KnowledgeMeaning.StoppedIsNeverSelected | crates/context-engine/src/fabric.rs:191-218 | Once a user excludes an identifier or a live one is revoked, no query of any continuation selects it |
| Redaction.RedactFields | crates/context-engine/src/fabric.rs:534-552 | The loop redacts the paths above the ceiling in sorted order and reports those that were there |
| Redaction.RedactionRevealsExactlyTheRest | crates/context-engine/src/fabric.rs:534-571 | Two values redact to the same value and list if and only if they differ at most at or below paths above the ceiling |
| Redaction.DisjointPathsKeepTheirValue | crates/context-engine/src/fabric.rs:554-571 | Every path neither below nor above a restricted path keeps its value, present or absent |
| Redaction.RestrictedPathsAreMasked | crates/context-engine/src/fabric.rs:534-571 | A restricted path is afterwards absent or the marker, and reported exactly when it was there under no other restricted path |
| Redaction.RestrictedRootsFirst | crates/context-engine/src/fabric.rs:543-547 | The sorted iteration visits a restricted path before the restricted paths below it |
| Vocabulary.NamesAreDistinct | crates/policy/src/vocabulary.rs:99-122 | An action name determines the action |
| Vocabulary.ValidIsCanonical | crates/policy/src/vocabulary.rs:493-517 | A resource that passes the grammar never ends in a slash |
| Vocabulary.PrefixIsSegmentwise | crates/policy/src/vocabulary.rs:478-490 | A prefix selector contains exactly the resources whose path segments begin with its own |
| Vocabulary.NarrowingIsExact | crates/policy/src/approval.rs:203-211 | `pattern_covers_pattern` holds exactly when everything the child contains the parent contains too |
| Policy.DigestBindsExactly | crates/policy/src/lib.rs:211-230 | Requests share a digest exactly when they agree on every bound field, or a collision is exhibited |
| Policy.SurfacedIdsAreMatches | crates/policy/src/lib.rs:571-587 | The surfaced rule identifiers are exactly those of the matching rules of the effect |
| Policy.DecideRequest | crates/policy/src/lib.rs:537-618 | The pass over the rules computes the decision, with the earlier refusals in order |
| Policy.DecisionMeaning | crates/policy/src/lib.rs:537-618 | Allowed exactly when the request is valid and isolated, some rule of some tier permits it, no rule of any tier denies it, and approval is given where needed; approval is asked for exactly when only it is missing |
| Policy.DeniesOnlyRestrict | crates/policy/src/lib.rs:537-618 | With more deny rules, in any tier and order, the outcome is a refusal or what it was without them |
| Policy.DecisionIdPinsDecision | crates/policy/src/lib.rs:620-647 | A decision identifier pins down the whole decision, or a collision is exhibited |
| PolicyMeaning.SelectsIff | crates/policy/src/vocabulary.rs:478-490 | A selector contains its resource and, for a prefix without its trailing slashes, all that lies below a slash after it |
| PolicyMeaning.MatchesIff | crates/policy/src/lib.rs:300-312 | A rule applies exactly when action and resource agree and kind of principal, sandbox, data class and task are all as it asks |
| PolicyMeaning.DecisionSpelledOut | crates/policy/src/lib.rs:537-618 | Outcome and reason of every decision, check by check, over the fields of the request and the rules of all tiers |
| PolicyMeaning.RefusedWithoutAFittingPermit | crates/policy/src/lib.rs:571-602 | When every permit on the action and resource asks for another kind, a missing sandbox, a lower data class or another task, the request is refused |
| PolicyMeaning.AFittingPermitCounts | crates/policy/src/lib.rs:571-618 | With a permit met in all respects and no deny met, the request is not denied by default, and is allowed or awaits approval when it is valid, isolated and credentialed |
| PolicyMeaning.LowerClassesStayAllowedIff | crates/policy/src/lib.rs:537-618 | Without deny rules, what is allowed is never refused at a lower data class, and is allowed there exactly unless an approval is asked for that was not given |
| PolicyMeaning.LowerClassCanNeedApproval | crates/policy/src/lib.rs:537-618 | For every isolated confidential request that needs no approval by itself, rules under which it is allowed and the public one needs approval |
| PolicyMeaning.MatchedInAuthorityOrder | crates/policy/src/lib.rs:571-587 | The surfaced identifiers are those of the rules that apply, at ascending positions |
| PolicyMeaning.TiersInOrder | crates/policy/src/lib.rs:571-571 | Rules are taken tier by tier |
| PolicyMeaning.ValidStaysInWorkspace | crates/policy/src/lib.rs:232-256 | A valid file or repository request names a resource below its own workspace |
| PolicyMeaning.ValidResourceDoesNotClimb | crates/policy/src/vocabulary.rs:493-517 | A valid resource is its scheme and segments none of which is empty or a dot step |
| PolicyMeaning.ValidResourceHidesNothing | crates/policy/src/vocabulary.rs:493-517 | Below its scheme it hides no dot in an escape, and it has no query, fragment or backslash |
| PolicyEnforcement.ApprovedGrantServesItsRequest | crates/policy/src/approval.rs:114-194 | An approved grant never widens the requested selector and validates for its own request exactly until it expires, is revoked or is consumed |
| PolicyEnforcement.RunKeepsSound | crates/policy/src/lib.rs:709-787 | Over every run with failing audits and effects, every effect directly follows a recorded allow decision on that request, is permitted by policy, and runs under a serving grant exactly where approval is needed |
| PolicyEnforcement.OneEffectPerOnceGrant | crates/policy/src/approval.rs:173-200 | A one-use grant identifier authorizes at most one effect in any run, and none after a direct use |
| PolicyEnforcement.NoEffectAfterRevocation | crates/policy/src/approval.rs:153-181 | No effect runs under a grant revoked earlier in the run |
| PolicyEnforcement.NoEffectUnderExpiredGrant | crates/policy/src/approval.rs:182-184 | No effect of any run runs under a grant that had expired |
| PolicyEnforcement.EffectRanAsApproved | crates/policy/src/approval.rs:173-194 | The request an effect ran for has the bound fields of the request that was approved, or a collision is exhibited |
| PolicyEnforcement.FailedAuditChangesNothing | crates/policy/src/lib.rs:720-748 | A failed audit before the effect runs nothing, records nothing and consumes nothing |
| PolicyEnforcement.EveryAnswerIsOnRecord | crates/policy/src/lib.rs:709-787 | Each answered call recorded exactly one decision, of the outcome the answer reports |
| PolicyEnforcement.UnrecordedEffectsAreReported | crates/policy/src/lib.rs:755-776 | Over every run the effects without a recorded result are as many as the calls that reported a failed trailing audit |
| PolicyEnforcement.PolicyEnforcer.ExecuteRequest | crates/policy/src/lib.rs:709-787 | The method's ledger, trace and result are those of one enforcement step |
| PolicyEnforcement.PolicyEnforcer.UseGrant | crates/policy/src/approval.rs:162-171 | `validate_and_consume` outside an enforced call: refused without effect, or consumed |
| PolicyEnforcement.PolicyEnforcer.RevokeGrant | crates/policy/src/approval.rs:153-155 | Revocation takes effect at once and consumes nothing |
| PolicyMeaning.ApprovedIff | crates/policy/src/approval.rs:114-141 | A grant is given exactly when it names itself and its approver, expires in time, and its selector has the resource and only what was asked for; it carries what was approved |
| PolicyMeaning.ValidationSpelledOut | crates/policy/src/approval.rs:173-194 | The error of every grant that does not serve a request, in the order of the checks |
| PolicyMeaning.ProceedingCallRuns | crates/policy/src/lib.rs:709-787 | A call that may proceed records its decision, runs the effect once, spends a one-use grant, and records the result or reports that it could not |
| PolicyMeaning.StoppedCallRecords | crates/policy/src/lib.rs:709-787 | A call that may not proceed runs nothing, spends nothing, and records its refusal with the reason |
| PolicyMeaning.AuditBindsExactly | crates/policy/src/audit.rs:48-77 | Audit records of a decision are equal exactly when the requests agree on workspace, action, operation, time, resource and principal, or a collision is exhibited |
| CommandLine.SplitArgs | apps/cli/src/ui.ts:31-86 | The automaton's loop computes the words of the scan, for every string |
| CommandLine.SplitReadsEveryQuoting | apps/cli/src/ui.ts:22-86 | However words are written (bare, escaped, single- or double-quoted, mixed, with any blanks) splitting yields the words they denote |
| CommandLine.SplitReadsEveryEnding | apps/cli/src/ui.ts:31-86 | Also for lines that end in an open quote or a lone backslash and for words that denote nothing: the quote runs to the end, the backslash is kept, empty words are dropped |
| CommandLine.SplitUndoesJoin | apps/cli/src/ui.ts:88-98 | `splitArgs(joinArgs(argv)) == argv` if and only if no word is empty |
| CommandLine.JoinQuotesWhatNeedsIt | apps/cli/src/ui.ts:94-98 | A word is left bare exactly when it is non-empty and has only characters from the safe set |
| CommandLine.RerunExecutesTheSameVector | apps/cli/src/ui.ts:161-199 | Splitting, joining and splitting again any typed line gives the vector of the first split |
| RoleExpansion.Expand | crates/enterprise/src/lib.rs:178-203 | Terminates on every role graph; success yields exactly the mapped roles reachable from the claim; refusal means a walk past `MAX_ROLE_DEPTH` that meets no mapped role twice, and such a walk through unmapped roles is always refused |
| RoleExpansion.RefusalNeedsFreshWalk | crates/enterprise/src/lib.rs:183-203 | A refused claim, in whatever order, has an inheritance walk past the bound on which no mapped role recurs |
| RoleExpansion.SmallMappedHierarchyIsAccepted | crates/enterprise/src/lib.rs:183-203 | At most nine enclosed roles, all mapped, are accepted in every order, cyclic or not |
| RoleExpansion.MutualInheritanceIsAccepted | crates/enterprise/src/lib.rs:171-177 | A concrete cyclic hierarchy that is accepted although the documentation has cycles refused |
| RoleExpansion.LongRingIsRefused | crates/enterprise/src/lib.rs:183-203 | A concrete cyclic hierarchy that is refused |
| RoleExpansion.WalkTakenFirstIsRefused | crates/enterprise/src/lib.rs:183-203 | A fresh walk past the bound along the last-claimed role and last-listed parents is refused |
| RoleExpansion.SingleLineRefusedIff | crates/enterprise/src/lib.rs:183-203 | With one claimed role and at most one parent each, refused if and only if such a walk exists |
| RoleExpansion.SimpleWalkIsRefusedInSomeOrder | crates/enterprise/src/lib.rs:183-203 | A walk past the bound that meets no role twice is refused in some order of the claim and of the parents |
| RoleExpansion.MappedRefusedInSomeOrderIff | crates/enterprise/src/lib.rs:183-203 | Where every reachable role is mapped, some order is refused if and only if a walk past the bound meets no role twice |
| RoleExpansion.FinishedIsReachable | crates/enterprise/src/lib.rs:183-203 | When the worklist is empty the expanded set is the mapped reachable roles, whatever the order |
| RoleExpansion.PoppingIsLighter | crates/enterprise/src/lib.rs:183-203 | Replacing a role by its parents one level deeper lowers the weight of the stack, cycles or not |
| RoleExpansion.RefusalDependsOnClaimOrder | crates/enterprise/src/lib.rs:178-203 | The concrete hierarchy on which one order of claimed roles is accepted and the other refused |
| StreamBudget.TaskBudget.Consume | crates/model-providers/src/budget.rs:42-48 | Charges the usage with saturation even when it does not fit, and says whether it fits |
| StreamBudget.DriveStream | crates/model-providers/src/budget.rs:65-132 | The loop computes the outcome of the events up to the first overrun and charges exactly their usage, saturating as the budget does |
| StreamBudget.CollectFragment | crates/model-providers/src/budget.rs:78-101 | A fragment extends the call of its index or starts one |
| StreamBudget.SortByIndex | crates/model-providers/src/budget.rs:118-119 | The same calls in ascending index order |
| StreamBudget.ChargedWhatIsReported | crates/model-providers/src/budget.rs:102-113 | The tokens charged are the usage the outcome reports |
| StreamBudget.CancelledIff | crates/model-providers/src/budget.rs:102-113 | Cancelled exactly when some usage event takes the running total over the budget |
| StreamBudget.ErrorMeaning | crates/model-providers/src/budget.rs:102-131 | The error from the events looked at: a finish for tool calls without a call, else an overrun budget, else a stream that never finished, else none |
| StreamBudget.TotalsSnoc | crates/model-providers/src/budget.rs:70-116 | What one more event adds to text, finish and usage |
| StreamBudget.TailIsIgnored | crates/model-providers/src/budget.rs:102-113 | Nothing after the cancelling event changes the outcome |
| StreamBudget.AssembledCall | crates/model-providers/src/budget.rs:78-101 | A call has the concatenated arguments of its fragments and their first non-empty identifier and name |
| StreamBudget.CallsInIndexOrder | crates/model-providers/src/budget.rs:118-119 | One call per index that has fragments, in index order |
| StreamBudget.InterleavingIsIrrelevant | crates/model-providers/src/budget.rs:78-119 | However the fragments of different calls interleave, the calls are the same |
| IpLiteral.FromStrRadix | crates/egress/src/lib.rs:567-575 | The digit loop yields the value of the numeral exactly when it fits 32 bits |
| IpLiteral.ParseIpNumberText | crates/egress/src/lib.rs:567-575 | The three notations are told apart by their marks |
| IpLiteral.ParsesExactlySpellings | crates/egress/src/lib.rs:567-575 | A part is read as a number exactly when it spells it in decimal, `0x` hex or leading-zero octal, below two to the 32 |
| IpLiteral.ParseIpv4Literal | crates/egress/src/lib.rs:542-565 | The nested loops over parts and bytes compute the four octets |
| IpLiteral.EveryLiteralParses | crates/egress/src/lib.rs:542-565 | Every one- to four-part literal in any mixture of notations parses, the last part modulo what its position holds |
| IpLiteral.EverySpellingParses | crates/egress/src/lib.rs:516-575 | All 1- to 4-part spellings of an address parse to that address |
| IpLiteral.LastPartFaithfulIffInRange | crates/egress/src/lib.rs:551-558 | A parsed literal denotes its written last part exactly when that part is in range for its position |
| IpLiteral.OversizedLastPartIsTruncated | crates/egress/src/lib.rs:551-558 | The concrete literal that is truncated |

## Left out

- Encrypted storage: SQLCipher, SQLite pragmas, write-ahead logging, migrations, page integrity checks, blob encryption and the operating system's credential store. All-or-nothing transactions, unique keys and atomic credential writes remain.
- The `projections` checkpoint row, the outbox attempt counter (always zero), handshake-failure events and the store's own policy-decision events: none of them is part of what the projections are compared against.
- EventStore.Store.AppendEvent: the sequence number is the position in the log; that an autoincrement column never reuses or skips a number is not derived.
- EventStore.Store.CommitArtifact: writing, hashing and encrypting the blob file happens before the transaction and enters as the blob's hashes and path; the blob row does not keep the sequence it was created at.
- KeyCustody.KeyedStore.Open: a candidate key is tried by whether it is the database key; the integrity and hash-chain checks made on opening are not part of it.
- MemoryAuthority.Authority.ProposeMemory: revision and write counters are unbounded, where the code uses 32- and 64-bit integers.
- StreamBudget.DriveStream: the usage of the events looked at is required to stay within 64 bits, outside which the reported usage would wrap or panic.
- Redaction.RedactFields: `redact_path` walks a mutable reference into the JSON tree; here the updated tree is a value, so sharing is not captured. JSON arrays are not entered, as in the code.
- KnowledgeFabric.Fabric.QueryChunks: sorting the ranked candidates is an insertion into a ranked list rather than a library sort; `explain`, `export_bundle` and the index digest are not modelled.
- PolicyEnforcement.PolicyEnforcer.ExecuteRequest: a failing audit write is taken to persist nothing.
- RoleExpansion.Expand: the rules and the bundle built from the expanded roles, claim validation and break-glass are not modelled.
- IpLiteral.ParseIpv4Literal: trimming, host canonicalization and IPv6 literals are not modelled.
- Policy bundle construction and snapshot update, and approval requests' vague-alternative and lifetime checks: one-branch validations.
- Effect broker, sandbox, secrets, model wire adapters, plugin host, health supervisor, production gates, evolution workshop, context exchange, the console's HTTP server and pages, and generated protocol types: not modelled; they call external services, draw pages or are single checks.

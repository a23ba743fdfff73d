# ActraDeck: verified core protocols

ActraDeck puts risky agent actions in front of a human and keeps an auditable history of what agents did.
This project models the parts of it whose correctness is hardest to see, and proves what they promise for
every input, every interleaving and every run of the modelled system. `dafny verify dfyconfig.toml` checks all of it.

- **Approvals (sidecar).** `Gate`, `ApprovalBridge`, `BridgeProvenance`, `BridgeOnce`, `BridgeOutcomes`, `BridgeRuntime`, `AllowlistStore`,
  `CodexRequests`, `CodexBridge`, `CodexOverBridge`, `CodexJsonRpc`: what is gated, where every allow comes from, that each request is
  settled exactly once, the expiring allowlist file, the codex layer on top, alone and composed
  with the bridge, and its newline framing.
- **Ownership and reconciliation (backend).** `SidecarRegistry`, `ApprovalReconciler`, `ApprovalIds`,
  `PendingRoundTrips`: session ownership and presence, retiring stale requests against a timing bound, and the
  timeout envelope of relay round trips.
- **Event store.** `IngestStore`, `WorkItems`, `Liveness`: exactly-once effects, the incrementally maintained
  work-items table against folding the whole history, what each event does to the items (`WorkItemLaws`), the evidence
  behind a badge, and liveness.
- **Audit.** `Json`, `Hashing`, `AuditIntegrity`, `AuditPacket`: the tamper-evident chain, for an arbitrary hash
  function; conclusions say "equal, or here is a collision among the texts actually hashed".
- **Data algorithms.** `PolicyStore`, `PolicyMeaning`, `Csv`, `Markers`, `Paging`, `SeqGap`.
- `Options`, `Text`, `TextOrder` and `Policies` hold shared vocabulary.

Protocols are step systems whose steps are the segments of the program between two suspension points; where the
program is an object with mutable fields there is also a class whose methods are proved to be those steps.

Where the code does not do what its comments say, the model follows the code and the exact condition is proved:

- Operation signatures are documented to differ for a different command, path, risk or tool. Two tools of one kind on
  one file, such as `Write` and `Edit`, sign the same, and so does an edit whose file path spells out a tool name, a
  NUL and an input (`Gate.OperandMeaning`, `Gate.WriteSignsLikeEdit`, `Gate.EditPathCanImitate`).
- Session approvals are documented as exact-signature. Codex requests without readable content (file changes,
  permissions, empty commands, unreadable patches) are told apart by their card tool alone, and an argument list is told
  apart by its words, wherever the spaces come from (`CodexRequests.CodexSameOperationIff`, `CodexRequests.CodexGrantAnswersIff`, `CodexRequests.FileRequestsShare`).
- A rebuild is documented to repair the work-items table. It deletes nothing, and it applies the event
  that triggered it last even if that event is late. With no row beside those it writes, it repairs exactly when what it
  writes is canonical, which is so whenever the event comes last; the condition for any table is proved too (`IngestStore.RebuildRepairs`,
  `IngestStore.RebuildRepairsInOrder`, `IngestStore.RebuildKeepsStrayRows`, `IngestStore.LateRebuildWritesStale`).
- A policy delta is documented to change one key. Labels are normalised again on every load, and the normaliser is
  not idempotent, so with a hand-edited label an unrelated delta can shorten another repository's
  (`PolicyStore.DeltaTouchesOnlyItsKey`, `PolicyStore.UnrelatedDeltaChangesLabel`); labels that come through the
  backend are settled (`PolicyStore.RelayedStaysInLockstep`).
- Presence can announce a session twice while its owner's link is closed but not yet removed
  (`SidecarRegistry.ClaimBreaksAlternationIff`, `SidecarRegistry.LinkChangePartsIff`, `SidecarRegistry.AnnouncedTwice`).

## Model

| member | source | states |
|---|---|---|
| `BridgeProvenance.AllowsAreJustified` | apps/sidecar/src/approval-bridge.ts:722-869 | In every run of the bridge, with any interleaving at the awaits, every allow is the operator's answer to that very request on its own card, or a session-cache hit on a signature the operator allowed for the session since the last drain, or a hit on the allowlist file as written so far |
| `BridgeOnce.UnquietNeedsOperator` | apps/sidecar/src/approval-bridge.ts:776-812 | In every run whatever is settled was called, and a call in bypass mode or with a secret in a scanned field is allowed only by the operator answering it |
| `BridgeProvenance.SessionHitSameOperation` | apps/sidecar/src/approval-bridge.ts:786-804 | A session-cache hit is for the same kind, risk and operand the operator allowed, or the two signed texts are an explicit hash collision |
| `BridgeProvenance.DiskGrantTraced` | apps/sidecar/src/approval-bridge.ts:810-839 | An allowlist hit rests on a grant for the same signature and repository that is the latest word on its key and unexpired: from the initial file, from another process, or written by this bridge on an operator's persistent allow of a quiet, persistable request in that repository |
| `BridgeOnce.SettledExactlyOnce` | apps/sidecar/src/approval-bridge.ts:843-868 | In every run each call is in exactly one place: settled once, suspended at one await, or waiting under one request id |
| `BridgeOnce.LateAnswersDoNothing` | apps/sidecar/src/approval-bridge.ts:927-989 | Once a request is settled, every later answer, timeout or cancel for it changes nothing; identifiers on cards are proved unique on the way |
| `BridgeOnce.DrainSettlesAll` | apps/sidecar/src/approval-bridge.ts:1229-1245 | A drain leaves nothing waiting and an empty session cache, refuses exactly the calls that were waiting, with shutdown as the origin, and every call that is not suspended has been settled exactly once |
| `BridgeProvenance.StepKeeps` | apps/sidecar/src/approval-bridge.ts:722-989 | Each step keeps the invariant that pending requests, cached signatures, suspended calls and the allowlist file are all backed by the history |
| `BridgeOutcomes.CacheIsLog` | apps/sidecar/src/approval-bridge.ts:927-974 | The session cache is exactly the set of signatures of quiet requests the operator allowed for the session since the last drain |
| `BridgeOutcomes.CallOutcomeExact` | apps/sidecar/src/approval-bridge.ts:525-869 | Exactly what a call comes to, by what it does: in bypass mode with overrides and a resolver it waits for its repository; otherwise it is deferred iff the operator need not be asked (no leak, no permission request, no command above low risk, no secret file, nothing external; in bypass mode, no covered category), allowed unattended iff asking is due and it is quiet and granted in the history, looked up in the allowlist iff a quiet medium-risk command may be remembered, and else shown with the reason |
| `BridgeOutcomes.ScopeOutcomeExact` | apps/sidecar/src/approval-bridge.ts:741-761 | After the repository lookup in bypass mode the call is deferred iff the policy then in memory for that repository covers none of its categories, and shown with the reason otherwise |
| `BridgeOutcomes.LookupOutcomeExact` | apps/sidecar/src/approval-bridge.ts:810-839 | After the allowlist's repository lookup the call is allowed iff the repository was identified and the file, as all processes wrote it, holds an unexpired grant for signature and scope; otherwise it is shown, persistable iff identified |
| `BridgeOutcomes.PersistTakesEffect` | apps/sidecar/src/approval-bridge.ts:941-965 | A saved persistent allow is in force until now + ttl and not longer; any other answer leaves the file alone |
| `BridgeOutcomes.AnswerExact` | apps/sidecar/src/approval-bridge.ts:927-974 | In any reachable state an answer does nothing for an id that does not wait; otherwise its call is told the operator's decision, never as automatic or from disk, the others wait on, and the cache gains the signature iff a quiet request was allowed for the session |
| `BridgeOutcomes.RefuseExact` | apps/sidecar/src/approval-bridge.ts:843-989 | A timeout and a cancel refuse a waiting call with their origin and no decision, and change neither cache nor file; for an unknown id they do nothing |
| `BridgeOutcomes.PolicyChangeTakesEffect` | apps/sidecar/src/approval-bridge.ts:1140-1180 | After a change of a repository's policy the operator is asked about a bypass-mode call there iff the policy is enabled, as given or as before, and a category, as given or as before, covers the call |
| `BridgeOutcomes.DefaultDecidesAgain` | apps/sidecar/src/approval-bridge.ts:1182-1213 | After an override is removed, or the default changed, the default decides for a repository without override |
| `BridgeRuntime.Bridge.RequestApproval` | apps/sidecar/src/approval-bridge.ts:722-869 | The first segment of a call is one step of the state machine, and its outcome is what the history ends with; outside bypass mode it is deferred iff the call leaks nothing, is no permission request and is harmless |
| `BridgeRuntime.Bridge.OnPolicyScope` | apps/sidecar/src/approval-bridge.ts:741-761 | The segment after the policy's repository lookup, under whatever the policy has become meanwhile |
| `BridgeRuntime.Bridge.OnPersistScope` | apps/sidecar/src/approval-bridge.ts:821-869 | The segment after the allowlist's repository lookup |
| `BridgeRuntime.Bridge.ResolveRequest` | apps/sidecar/src/approval-bridge.ts:927-974 | Answering: false and no change for an unknown id; otherwise the whole new state, cache and file included |
| `BridgeRuntime.Bridge.Refuse` | apps/sidecar/src/approval-bridge.ts:843-852 | Timeout and external cancel settle with a denial of the given origin, once |
| `BridgeRuntime.Bridge.DrainAll` | apps/sidecar/src/approval-bridge.ts:1229-1245 | The shutdown loop denies every waiting request with origin shutdown and clears the cache |
| `BridgeRuntime.Bridge.SetPolicyConfig` | apps/sidecar/src/approval-bridge.ts:1140-1213 | Field by field: what is given is set, what is not given stays or takes its first value, an empty default falls back to the preset categories, every other scope is untouched, and the handed-back change carries exactly the new value |
| `BridgeRuntime.Bridge.ChangeDefaultPolicy` | apps/sidecar/src/approval-bridge.ts:1183-1199 | A change of the default, field by field, an empty set of categories falling back to the preset one |
| `BridgeRuntime.Bridge.ChangeRepoPolicy` | apps/sidecar/src/approval-bridge.ts:1155-1181 | A change of one override, field by field, an empty set of categories standing |
| `Gate.DetectSecretInInput` | apps/sidecar/src/approval-bridge.ts:582-624 | The scan says secret iff the redactor would change the command, an edit's contents or path, or an MCP tool's whole input, and its kinds are exactly the known marker kinds of the redacted texts |
| `Gate.SecretTriggerExact` | apps/sidecar/src/approval-bridge.ts:631-657 | Outside bypass mode a call is secret-triggered iff a scanned field leaks, and a leaking call is always gated |
| `Gate.NormalGateExact` | apps/sidecar/src/approval-bridge.ts:543-657 | Outside bypass mode a permission request is always gated, and any other call iff it leaks, runs a command that is not low-risk, edits a secret file, or is an MCP or WebFetch call; the trigger says which and the kinds are those of the leaking texts |
| `Gate.BypassGateExact` | apps/sidecar/src/approval-bridge.ts:429-705 | In bypass mode the gate closes iff the kill switch is on, a default policy exists, and the repository's entry (else the default) is enabled and lists a category the call falls under, each spelled out by what the call does; the trigger tells secret categories from others |
| `Gate.SignatureIdentifies` | apps/sidecar/src/approval-bridge.ts:153-157 | Equal signatures mean equal kind, risk and operand, or a collision on the two signed texts |
| `Gate.OperandMeaning` | apps/sidecar/src/approval-bridge.ts:466-489 | Two calls sign the same operation iff they are the same action (same tool on the same command, file or input), or two tools of one kind are used on the same command or file, or one is an edit whose file path literally spells out the other's tool name, a NUL and its input |
| `Gate.OperandMeaningPlain` | apps/sidecar/src/approval-bridge.ts:466-489 | Without NUL characters in file paths, the same operation is the same action up to the tool's name among tools of one kind |
| `Gate.EditPathCanImitate` | apps/sidecar/src/approval-bridge.ts:471-488 | A concrete pair of different edit calls with the same operation through an oddly named file |
| `Gate.WriteSignsLikeEdit` | apps/sidecar/src/approval-bridge.ts:457-489 | Writing a file and editing it are different tools and sign the same operation, whatever is written |
| `AllowlistStore.GrantExact` | apps/sidecar/src/approval-allowlist-store.ts:159-210 | After any operations on any file, with no assumption on clocks: a key's entry is the one its latest add wrote, unless a matching revoke or clear came later or a later add of another key pruned it as expired |
| `AllowlistStore.HasIffGranted` | apps/sidecar/src/approval-allowlist-store.ts:148-152 | With no add later than t, has at t is true iff the latest add was not followed by a matching revoke or clear and now + ttl exceeds t |
| `AllowlistStore.PruningShowsIfClockStepsBack` | apps/sidecar/src/approval-allowlist-store.ts:167-171 | With a clock that steps back, a grant good until 20 is gone at 15 |
| `AllowlistStore.OneEntryPerKey` | apps/sidecar/src/approval-allowlist-store.ts:159-182 | A key that was ever added, or that the initial file listed at most once, has at most one entry |
| `AllowlistStore.RenewalKeepsCreation` | apps/sidecar/src/approval-allowlist-store.ts:164-180 | Adding a key again slides its expiry and keeps its creation time |
| `AllowlistStore.ApprovalAllowlistStore.AddApproval` | apps/sidecar/src/approval-allowlist-store.ts:159-182 | The locked read-modify-write of an add; the grant is in force at once iff its ttl is positive |
| `AllowlistStore.ApprovalAllowlistStore.RevokeApproval` | apps/sidecar/src/approval-allowlist-store.ts:188-198 | Removes every matching entry, returns how many, and zero iff none matched |
| `CodexRequests.BodyReadsBack` | apps/sidecar/src/approval-bridge-codex.ts:73-134 | Codex reads the operator's decision back from the response; no decision, and any decision on permissions, reads as a refusal |
| `CodexRequests.GoAheadExact` | apps/sidecar/src/approval-bridge-codex.ts:246-257 | Codex goes ahead iff the bridge allowed (never for permissions), and for the session only if the operator said so |
| `CodexRequests.CodexRequestIsHitOrCard` | apps/sidecar/src/approval-bridge-codex.ts:220-242 | A codex request never suspends and is never persisted: it is a session hit or a card, with the secret rule applied |
| `CodexRequests.CodexSameOperationIff` | apps/sidecar/src/approval-bridge-codex.ts:485-517 | Two codex requests of any kinds sign the same operation iff they are about the same: the same words of a command, as a text or as an argument list, the same file changes, or, with nothing readable, the same tool on the card |
| `CodexRequests.CodexGrantAnswersIff` | apps/sidecar/src/approval-bridge-codex.ts:198-257 | From any reachable state, after the operator allows a waiting codex request for the session, a later one is answered unattended iff it leaks no secret and was covered before, or the allowed one leaks none either and both are about the same, short of a hash collision |
| `CodexRequests.GateInputExact` | apps/sidecar/src/approval-bridge-codex.ts:485-517 | What is put to the gate is what the request is about: a command with exactly its words, or the encoded file changes, or nothing |
| `CodexRequests.LegacyExecReadsBack` | apps/sidecar/src/approval-bridge-codex.ts:495-501 | An argument list without spaces is read back exactly, word for word, from the command put to the gate |
| `CodexRequests.CodexSecretExact` | apps/sidecar/src/approval-bridge-codex.ts:471-517 | A codex request leaks iff its command, or its encoded changes, would be changed by the redactor; one without readable content never does |
| `CodexRequests.FileRequestsShare` | apps/sidecar/src/approval-bridge-codex.ts:485-517 | Failing inputs: all file requests, and a patch without readable changes, sign the same |
| `CodexRequests.CommandRequestsAreExact` | apps/sidecar/src/approval-bridge-codex.ts:485-497 | Command requests sign the same operation iff the commands are equal |
| `CodexBridge.MapsAreInverse` | apps/sidecar/src/approval-bridge-codex.ts:223-226 | In every run the forward and reverse maps are inverse to each other |
| `CodexBridge.CardResolvedOnce` | apps/sidecar/src/approval-bridge-codex.ts:271-301 | A card has at most one resolved event, and exactly one as soon as its request's continuation has run, across all orders of decision, timeout and exit |
| `CodexBridge.AtMostOneResponse` | apps/sidecar/src/approval-bridge-codex.ts:271-293 | An accepted request has at most one response, and none before its continuation |
| `CodexBridge.AnsweredExactlyOnce` | apps/sidecar/src/approval-bridge-codex.ts:271-293 | While the codex process lives and sending works, every finished request has exactly one response |
| `CodexBridge.FinishTellsDecision` | apps/sidecar/src/approval-bridge-codex.ts:271-301 | The response carries the request's own id and a body that reads as the bridge's decision, and the resolved event carries the same decision |
| `CodexBridge.SilentAfterExit` | apps/sidecar/src/approval-bridge-codex.ts:321-345 | After the codex process exits no response is ever sent |
| `CodexBridge.ResolvedIsOwn` | apps/sidecar/src/approval-bridge-codex.ts:271-345 | In every run the runner can produce (nothing is accepted after the exit handler), every resolved event is for its own request's card |
| `CodexBridge.CodexApprovalBridge.HandleServerRequest` | apps/sidecar/src/approval-bridge-codex.ts:198-262 | A request whose key is in flight is ignored; otherwise the whole new state |
| `CodexBridge.CodexApprovalBridge.FinishRequest` | apps/sidecar/src/approval-bridge-codex.ts:271-301 | The continuation is one step; a response with the mapped body goes out iff the key is in flight, the process lives and sending works, and the resolved request is the one the forward map holds for the key |
| `CodexBridge.CodexApprovalBridge.CancelInFlight` | apps/sidecar/src/approval-bridge-codex.ts:321-345 | The exit loop denies exactly the requests in flight and empties the maps |
| `CodexOverBridge.LayersRun` | apps/sidecar/src/approval-bridge-codex.ts:228-262 | In every run of the codex layer over the bridge each layer goes through a run of its own, so the results about both hold of the whole |
| `CodexOverBridge.ToldIsOutcome` | apps/sidecar/src/approval-bridge-codex.ts:246-303 | In every run of the two layers each response answers an accepted request under its id, and codex reads go-ahead iff the bridge's one outcome of that call is an allow and it is not a permissions request |
| `CodexOverBridge.GoAheadTraced` | apps/sidecar/src/approval-bridge-codex.ts:228-303 | In every run of the two layers every go-ahead codex reads is the operator's own decision on that request's card or, without a card, a single allow resting on a session grant since the last drain |
| `CodexJsonRpc.ChunkingIrrelevantIff` | apps/sidecar/src/codex-jsonrpc.ts:107-127 | Messages and leftover are the same for every cutting of a stream into reads iff every terminated line fits the cap and the rest exceeds it by at most one |
| `CodexJsonRpc.TooLongDepends` | apps/sidecar/src/codex-jsonrpc.ts:118-127 | For every stream that does not fit there is a cut in two that reads differently |
| `CodexJsonRpc.SendThenRead` | apps/sidecar/src/codex-jsonrpc.ts:88-145 | Whatever is sent is read back in order, through any cutting, with an empty buffer |
| `CodexJsonRpc.LineExact` | apps/sidecar/src/codex-jsonrpc.ts:129-145 | A line gives nothing if blank, a message if it parses to an object, and otherwise a parse error with the line, alike with and without a carriage return before the newline |
| `CodexJsonRpc.JsonRpcReader.Read` | apps/sidecar/src/codex-jsonrpc.ts:107-127 | The read loop handles every complete line in order and never leaves more than the cap |
| `PendingRoundTrips.SettledOnce` | apps/backend/src/pending-round-trips.ts:39-82 | Whatever ids are used, a registered waiter is settled at most once, and until then its timer is armed |
| `PendingRoundTrips.StepExact` | apps/backend/src/pending-round-trips.ts:39-82 | What each step does: registering arms a timer and makes the waiter the one its id finds, an answer settles the waiter found, a timer its own, and rejecting every waiter that can still be found |
| `PendingRoundTrips.LateAnswerDoesNothing` | apps/backend/src/pending-round-trips.ts:39-69 | In every run, once a waiter is settled its timer cannot fire and an answer or abort for its id changes nothing, the id having been registered only for it |
| `PendingRoundTrips.ShutdownLeavesNoneIff` | apps/backend/src/pending-round-trips.ts:76-82 | Shutdown leaves no waiter outstanding iff every outstanding waiter is still pending under its own id |
| `PendingRoundTrips.ShutdownSettlesAll` | apps/backend/src/pending-round-trips.ts:39-82 | With ids that are not pending when registered, shutdown at any moment settles every waiter, each exactly once over the run |
| `PendingRoundTrips.DuplicateOutlivesShutdown` | apps/backend/src/pending-round-trips.ts:39-46 | Registering an id that is still pending leaves its first waiter outstanding after shutdown |
| `PendingRoundTrips.RoundTrips.RejectEverything` | apps/backend/src/pending-round-trips.ts:76-82 | The shutdown loop clears the timer of every pending waiter and settles it |
| `PendingRoundTrips.RoundTrips.SettleWaiter` | apps/backend/src/pending-round-trips.ts:57-63 | Hands out the waiter of a pending id once, clearing its timer |
| `SidecarRegistry.RegistryInvariant` | apps/backend/src/sidecar-registry.ts:469-682 | In every run an owned session's connection is registered and lists it, no session is both owned and in grace, and the daemon index is exactly the registered connections |
| `SidecarRegistry.HelloOwnsExactly` | apps/backend/src/sidecar-registry.ts:531-544 | After a hello with session ids the connection owns exactly that set, and every other connection loses only what it claimed |
| `SidecarRegistry.RemoveFreesAll` | apps/backend/src/sidecar-registry.ts:488-502 | A removed connection owns nothing and everything it owned is in grace |
| `SidecarRegistry.PresenceAlternates` | apps/backend/src/sidecar-registry.ts:614-682 | With links open exactly while registered, each session's notifications alternate true and false and the last one says whether it is live |
| `SidecarRegistry.ClaimBreaksAlternationIff` | apps/backend/src/sidecar-registry.ts:614-629 | A claim breaks a session's alternation iff the link is open, the session was last announced present, and it is neither in grace nor owned over an open link |
| `SidecarRegistry.GraceBreaksAlternationIff` | apps/backend/src/sidecar-registry.ts:631-645 | The end of a grace period breaks alternation iff the session was not last announced present |
| `SidecarRegistry.LinkChangePartsIff` | apps/backend/src/sidecar-registry.ts:662-666 | When a link closes or opens, the last announcement and liveness part exactly for the sessions owned over that link and not in grace, if the link changes at all |
| `SidecarRegistry.AnnouncedTwice` | apps/backend/src/sidecar-registry.ts:614-629 | A concrete run after which a session has been announced present twice in a row |
| `SidecarRegistry.Registry.LiveSessionIds` | apps/backend/src/sidecar-registry.ts:675-682 | The listed ids are exactly the sessions that are live |
| `SidecarRegistry.Registry.Claim` | apps/backend/src/sidecar-registry.ts:614-629 | One claim: grace cancelled, ownership taken, and a notification iff the session was not live |
| `SidecarRegistry.Registry.RemoveLink` | apps/backend/src/sidecar-registry.ts:488-502 | The close loop puts every session still owned into grace |
| `SidecarRegistry.Registry.HandleHello` | apps/backend/src/sidecar-registry.ts:508-552 | The hello loops claim what is listed and release what is not |
| `SidecarRegistry.Registry.OnGraceEnd` | apps/backend/src/sidecar-registry.ts:631-645 | The grace timer announces absence iff the session is not live then |
| `ApprovalReconciler.NeverRetiresLive` | apps/backend/src/approval-reconciler.ts:182-220 | If every hello arrives within the 2000 ms watermark on a shared clock and speaks for its own daemon's requests, every request retired synthetically existed and was already dead when the hello was built |
| `ApprovalReconciler.LateHelloRetiresLive` | apps/backend/src/approval-reconciler.ts:190-203 | For every longer delay there is a run that retires a live request: the bound is exact |
| `ApprovalReconciler.DeadRowIsRetired` | apps/backend/src/approval-reconciler.ts:190-213 | A row of a request dead at the snapshot, of a retirable form and older than the watermark, is retired when the scan reaches it; a declared one never is |
| `ApprovalReconciler.LookRetiresIff` | apps/backend/src/approval-reconciler.ts:190-213 | A row is retired iff its id is undeclared, of a retirable form and not in flight, and it was asked more than 2000 ms before the hello came; every other row is passed over, and counted iff its undeclared id has no retirable form |
| `ApprovalReconciler.IngestMovesOn` | apps/backend/src/approval-reconciler.ts:205-218 | The end of an ingest frees its id, and the scan goes on with the row after it |
| `ApprovalReconciler.HelloStartsIff` | apps/backend/src/sidecar-registry.ts:567-577 | A hello starts a reconcile iff it speaks for 1 to 1024 sessions, declares at most 1024 ids, all of the current form, and fewer than four are running |
| `ApprovalReconciler.OneIngestPerId` | apps/backend/src/approval-reconciler.ts:172-220 | At any moment at most four reconciles are running and no id has two synthetic ingests in flight |
| `ApprovalReconciler.Reconciler.Scan` | apps/backend/src/approval-reconciler.ts:190-220 | The row loop stops at the first stale row that is not in flight, passes over exactly the others and counts the ids of no retirable form; from a world with the object's fields it leads to the fields of the world after that many looks |
| `ApprovalReconciler.Reconciler.Begin` | apps/backend/src/approval-reconciler.ts:172-180 | A signal is dropped iff four reconciles are running; the fields become those of the world after the receiving step |
| `ApprovalReconciler.Reconciler.IngestDone` | apps/backend/src/approval-reconciler.ts:214-217 | The end of a synthetic ingest leaves the fields of the world after that step |
| `ApprovalReconciler.LookRunIsRun` | apps/backend/src/approval-reconciler.ts:189-220 | Looks in a row are a run of the step system, so what holds of runs holds of the scan |
| `ApprovalIds.ParseActivePendingRequestIds` | packages/event-model/src/approval-reconcile-wire.ts:80-95 | A declaration is taken whole or not at all: none if too long or any id malformed, else exactly its ids |
| `ApprovalIds.RetirableExact` | packages/event-model/src/approval-request-id.ts:44-121 | The ids that may be retired are exactly a hashed session and 32 hex digits, or a session of 1 to 128 plain characters and one of the three older tokens, joined by the tag |
| `ApprovalIds.RetirableIsPlain` | packages/event-model/src/approval-request-id.ts:92-121 | An id with a redaction marker in it is never retirable |
| `IngestStore.ExactlyOnce` | apps/backend/src/ingest-store.ts:240-323 | For every interleaving of deliveries, evictions and restarts, dropping repeated deliveries leaves log, projections, work items and cache the same |
| `IngestStore.LogIsFirstDeliveries` | apps/backend/src/ingest-store.ts:251-281 | The log is exactly the first delivery of each event id, in order of arrival |
| `IngestStore.ProjectionIsReduced` | apps/backend/src/ingest-store.ts:297-307 | A session's projection is the reducer applied once to each of its stored events, in order of arrival |
| `IngestStore.TableIsCanonical` | apps/backend/src/ingest-store.ts:695-797 | With each new event last in its session's canonical order, under any evictions, restarts and repeats, the work_items rows and every cached state equal folding the whole stored history |
| `IngestStore.RebuildIsFullFold` | apps/backend/src/ingest-store.ts:715-761 | Reading only the gated rows in canonical order rebuilds the fold of the whole history |
| `IngestStore.RowsAfterIncrement` | apps/backend/src/ingest-store.ts:773-782 | Writing only the changed items makes the rows the new items |
| `IngestStore.RebuildRepairs` | apps/backend/src/ingest-store.ts:715-797 | For every event that triggers a rebuild, late ones included, and any table: the rows are then exactly canonical iff no row has an id the canonical fold lacks, every written item is canonical, and each canonical item not written had its row; with no row beside the written ones, iff the written items are the canonical ones |
| `IngestStore.RebuildWrites` | apps/backend/src/ingest-store.ts:695-713 | What a rebuild writes is the fold of the earlier history with the event applied last: every such item gets its row, and the rows are exactly those iff no stray row was there |
| `IngestStore.RebuildRepairsInOrder` | apps/backend/src/ingest-store.ts:695-797 | If the event comes last in canonical order, every canonical item gets its row and the rows are exactly canonical iff no stray row was there |
| `IngestStore.RebuildKeepsStrayRows` | apps/backend/src/ingest-store.ts:715-797 | A concrete history after which the rebuild leaves a stray row, contrary to the comment that a rebuild repairs the table |
| `IngestStore.LateRebuildWritesStale` | apps/backend/src/ingest-store.ts:681-713 | A concrete history with canonical rows and no stray row: a late completion triggers the rebuild after a restart and the row says completed where the canonical fold says in progress |
| `IngestStore.IngestStore.IngestOne` | apps/backend/src/ingest-store.ts:240-323 | One committed delivery: reports whether it was new, and the whole new store |
| `IngestStore.IngestStore.ApplyWorkItemsIncremental` | apps/backend/src/ingest-store.ts:695-713 | Cache hit: fold one event and write the changed rows; miss: rebuild and write all |
| `IngestStore.IngestStore.UpsertWorkItemRows` | apps/backend/src/ingest-store.ts:773-782 | The loop writes exactly the items that changed |
| `WorkItems.FoldGated` | apps/backend/src/ingest-store.ts:80-96 | Folding only the gated events equals folding all of them |
| `WorkItems.IdsOnlyGrow` | packages/projection/src/work-items.ts:253-315 | Item ids stay distinct, at most 200, and ids once present stay, in place |
| `WorkItems.VerifiedHasEvidence` | packages/projection/src/work-items.ts:423-487 | In every history an item shown as verified names a recorded check that passed, completed no earlier than the claim, and since which the tree has not moved |
| `WorkItems.CheckExact` | packages/projection/src/work-items.ts:423-487 | A completed check with a usable outcome verifies or fails exactly the items claimed by then |
| `WorkItems.TreeChangeExact` | packages/projection/src/work-items.ts:392-421 | A tree change turns every verified badge into changed-after-verification, and no other |
| `WorkItems.DirtyExact` | packages/projection/src/work-items.ts:381-421 | An open check was started by a recorded event and is dirty iff the tree moved since |
| `WorkItems.ReduceWorkItems` | packages/projection/src/work-items.ts:518-525 | The loop computes the fold of the history, whose effect per event the rows of WorkItemLaws give |
| `WorkItemLaws.TaskReportExact` | packages/projection/src/work-items.ts:253-334 | A task report touches its own item alone: created or updated with claim, reopening and fidelity rules field by field, or only counted if new and 200 are there; a report without an id does nothing |
| `WorkItemLaws.ReopenAndReclaim` | packages/projection/src/work-items.ts:286-311 | A completed task reported otherwise keeps no claim, evidence or badge; completed again, its claim is the new report's, dated then, and only self-claimed |
| `WorkItemLaws.PlanSnapshotExact` | packages/projection/src/work-items.ts:336-379 | A snapshot adds its new ids in order up to 200 and counts each position that did not fit; a listed item says what its last position says and, listed once, is created or updated by that report; an unlisted plan item becomes removed with claim and evidence kept; task items and everything else stay |
| `WorkItemLaws.IdsTellApart` | packages/event-model/src/work-item.ts:139-161 | Ids are equal iff scheme and text are, plan texts up to outer white space, or the digests agree in sixteen digits |
| `WorkItemLaws.EndFreezes` | packages/projection/src/work-items.ts:489-516 | The fold is frozen iff the session ended or an event carried a final state, and from the first such event on nothing counts |
| `WorkItemLaws.DiffExact` | packages/projection/src/work-items.ts:392-421 | A diff event that describes a new tree sets its fingerprint, turns exactly the verified items stale and marks every open check dirty; any other does nothing |
| `WorkItemLaws.FingerprintIdentifies` | packages/event-model/src/work-item.ts:163-173 | Fingerprints are equal iff commit and diff are, short of a collision or a lone diff spelling out a digest; none iff nothing is known |
| `WorkItemLaws.OpenChecksExact` | packages/projection/src/work-items.ts:381-470 | In every history a check is open iff it was started while the session ran and has not completed since, and it is dirty iff the tree moved since its last start |
| `WorkItemLaws.CheckBindsDirty` | packages/projection/src/work-items.ts:423-487 | In every history a completed check with a telling outcome is recorded on exactly the items claimed by then, every field of the evidence, dirty iff the tree moved since it was last started |
| `WorkItemLaws.StartOnlyOpens` | packages/projection/src/work-items.ts:381-390 | A started command opens a check at most |
| `Liveness.ObserveFromEvents` | apps/backend/src/liveness.ts:196-279 | The fold computes the declarative aggregate of the SQL: per-signal maxima, and the process of the heartbeat greatest by timestamp and then event id |
| `Liveness.AggregateUnique` | apps/backend/src/ingest-store.ts:876-1010 | Any two aggregates of the same events agree, in whatever order and however often the events were seen |
| `Liveness.SyntheticRetireInvisible` | apps/backend/src/liveness.ts:230-242 | A retirement the backend itself wrote does not change the aggregate |
| `Liveness.SynthesizeLiveness` | apps/backend/src/liveness.ts:95-167 | Live iff the process was seen alive, or any signal seen, within the stale window; stalled iff the process was seen dead and nothing recently; unknown iff nothing was observed; idle otherwise; and the age and freshness shown for each signal |
| `Liveness.LiveIff` | apps/backend/src/liveness.ts:95-279 | From the events alone a session is live iff some event other than a dead heartbeat or a synthetic retirement lies within the stale window |
| `Liveness.SignalTypes` | apps/backend/src/liveness.ts:196-279 | Which event types feed which signal |
| `Liveness.NeverLiveAgain` | apps/backend/src/liveness.ts:95-167 | With the events fixed a later clock never returns to live |
| `Liveness.DeathNoticesAreNotLife` | apps/backend/src/liveness.ts:196-279 | If all that was ever seen is that the process is dead, the session is never live |
| `AuditIntegrity.RootBindsContent` | apps/backend/src/audit-integrity.ts:183-256 | The chain root alone determines session id, summary, event list with its length, diff and truncation flag, or two texts among those hashed collide |
| `AuditIntegrity.SameRootSameDisplay` | apps/backend/src/audit-integrity.ts:551-657 | Two chain-valid manifests with equal roots display the same, or exhibit a collision |
| `AuditIntegrity.BuildAuditManifest` | apps/backend/src/audit-integrity.ts:392-440 | The built manifest shows the report field by field, the diff body by its hash, has a valid chain, and a signature over its header iff there is a key |
| `AuditIntegrity.VerifyAuditManifest` | apps/backend/src/audit-integrity.ts:551-657 | ok iff version, algorithm and chain are right and there is no signature, or one that verifies on the header by the pinned key; signed, signature_valid, key_trusted and every reason hold exactly in their own cases |
| `AuditIntegrity.CheckChain` | apps/backend/src/audit-integrity.ts:568-590 | Recomputing the chain accepts iff the recorded count, every recorded link and the root are those of the content |
| `AuditIntegrity.BuildThenVerify` | apps/backend/src/audit-integrity.ts:392-440 | What build produced verifies when the pin is the signer's fingerprint |
| `AuditIntegrity.TrustedMeansBuilt` | apps/backend/src/audit-integrity.ts:551-657 | A manifest that verifies under a key's fingerprint displays what one of the manifests signed with it displays, made at the same time, or exhibits a collision, a second key with that fingerprint, or a signature on a header the holder never signed |
| `AuditIntegrity.BuildIsTrusted` | apps/backend/src/audit-integrity.ts:392-440 | What one build signed is trusted under the signer's fingerprint and is neither a forgery nor another key's |
| `AuditIntegrity.DiffBodyBound` | apps/backend/src/audit-integrity.ts:317-333 | Equal diff records mean equal diff bodies, or a collision on them |
| `AuditIntegrity.EventLayout` | apps/backend/src/audit-integrity.ts:202-214 | The hashed text of an event, field by field in order |
| `AuditIntegrity.HeaderLayout` | apps/backend/src/audit-integrity.ts:379-386 | The signed text, field by field in order |
| `AuditIntegrity.SessionLayout` | apps/backend/src/audit-integrity.ts:403-407 | The text the chain starts from |
| `AuditIntegrity.SummaryLayout` | apps/backend/src/audit-integrity.ts:217-243 | The hashed text of a summary, field by field in order |
| `AuditIntegrity.CloseLayout` | apps/backend/src/audit-integrity.ts:246-256 | The hashed text of diff and truncation flag, field by field in order |
| `AuditPacket.PacketRootBinds` | apps/backend/src/audit-integrity.ts:743-831 | The packet root determines every session line and the governance figures, or exhibits a collision |
| `AuditPacket.PacketBindsSessions` | apps/backend/src/audit-integrity.ts:781-831 | Through the session roots, the packet root determines what every session displays |
| `AuditPacket.BuildPacketManifest` | apps/backend/src/audit-integrity.ts:781-831 | The built packet carries its lines and governance with a valid chain and signature |
| `AuditPacket.LineLayout` | apps/backend/src/audit-integrity.ts:743-753 | The hashed text of a session line, field by field in order |
| `AuditPacket.HeaderLayout` | apps/backend/src/audit-integrity.ts:768-774 | The signed text, field by field in order |
| `AuditPacket.OpeningLayout` | apps/backend/src/audit-integrity.ts:790-795 | The text the packet chain starts from |
| `AuditPacket.GovernanceLayout` | apps/backend/src/audit-integrity.ts:755-766 | The hashed text of the governance figures and flags, field by field in order |
| `AuditPacket.VerifyPacketManifest` | apps/backend/src/audit-integrity.ts:887-983 | ok iff version, algorithm and chain are right and there is no signature, or one that verifies on the header by the pinned key; every other field and reason exactly in its own case |
| `AuditPacket.BuildThenVerifyPacket` | apps/backend/src/audit-integrity.ts:781-831 | What build produced verifies under the signer's fingerprint |
| `AuditPacket.TrustedPacketMeansBuilt` | apps/backend/src/audit-integrity.ts:887-983 | A packet that verifies under a key's fingerprint is one of those signed with it, or exhibits a collision, a second key or a forgery |
| `Json.EncodeInjective` | apps/backend/src/audit-integrity.ts:183-256 | The canonical JSON text determines the value, whatever text follows it |
| `PolicyStore.LoadSave` | apps/sidecar/src/approval-policy-store.ts:79-176 | What is read back after a save is the policy, normalised |
| `PolicyStore.LoadSaveIdentityIff` | apps/sidecar/src/approval-policy-store.ts:79-176 | Load after save is the identity iff the default gates something, every scope is a hash and every label is settled |
| `PolicyStore.DeltaTouchesOnlyItsKey` | apps/sidecar/src/approval-policy-store.ts:187-201 | A locked delta leaves the default and other repositories' settings as they were; another repository's entry is wholly unchanged iff its label is absent or settled |
| `PolicyStore.UnrelatedDeltaChangesLabel` | apps/sidecar/src/approval-policy-store.ts:98-110 | A concrete file with a long label, and an unrelated delta that changes that repository's entry |
| `PolicyStore.DeltaRenormalises` | apps/sidecar/src/approval-policy-store.ts:187-201 | Another repository's entry after a delta is the loaded one with its label normalised once more |
| `PolicyStore.DeltaSetsItsKey` | apps/sidecar/src/approval-policy-store.ts:187-201 | What a delta sets is what is loaded afterwards |
| `PolicyStore.LastWriteWins` | apps/sidecar/src/approval-policy-store.ts:187-201 | After any interleaving of locked deltas, whatever each writer's memory held, a repository's entry is that of the last write to it over the initial file: settings exactly, label normalised by the write and once more, for good, by any later delta |
| `PolicyStore.LastDefaultWins` | apps/sidecar/src/approval-policy-store.ts:187-201 | The default likewise |
| `PolicyStore.LockstepIff` | apps/backend/src/sidecar-registry.ts:1052-1144 | Daemons that start from a file loading as a normal policy and see every change in the same order all stay equal to what the file loads as, after every turn, iff every change has a hash as its scope and a settled label |
| `PolicyStore.RelayedStaysInLockstep` | apps/sidecar/src/policy-relay.ts:74-133 | Changes that come through the backend, which normalises labels as the daemon does again, always keep daemons and file in agreement |
| `PolicyStore.WrittenIsMutatedIffNormal` | apps/sidecar/src/approval-bridge.ts:1140-1226 | A daemon that agrees with a file that loads as a normal policy still agrees after its write iff the change has a hash as its scope and a settled label |
| `PolicyStore.TurnAgreesIff` | apps/backend/src/sidecar-registry.ts:1052-1144 | From any file, one turn keeps all daemons equal to what the file loads as iff the changed policy is normal |
| `PolicyStore.CategoriesRoundTrip` | packages/event-model/src/payload.ts:210-232 | Category sets survive writing in the fixed order and projecting back |
| `PolicyStore.SanitizeTwiceIff` | packages/event-model/src/path-scope.ts:83-88 | Normalising a label twice equals normalising once iff the cut at 64 characters did not leave white space at the end |
| `PolicyStore.SanitizeNotIdempotent` | packages/event-model/src/path-scope.ts:83-88 | A concrete label for which the two differ |
| `PolicyStore.SanitizeSettles` | packages/event-model/src/path-scope.ts:83-88 | Twice is always enough |
| `PolicyStore.SettledIffFixed` | packages/event-model/src/path-scope.ts:83-88 | The labels the normaliser leaves alone are exactly the plain, trimmed, non-empty ones of at most 64 characters |
| `PolicyStore.ParseReposLoop` | apps/sidecar/src/approval-policy-store.ts:98-110 | The loop keeps exactly the well-formed entries under hash scopes |
| `PolicyStore.MutateExact` | apps/sidecar/src/approval-bridge.ts:1140-1213 | A daemon's memory changes field by field as asked, and it hands on exactly the new value of the one key |
| `PolicyMeaning.LoadReads` | apps/sidecar/src/approval-policy-store.ts:79-160 | What every shape of file says: layered, flat, malformed or none; enabled unless false, exactly the listed categories with a fallback for the default only, and entries under hash scopes with their labels |
| `PolicyMeaning.SaveWrites` | apps/sidecar/src/approval-policy-store.ts:147-176 | What is written: version 2, the default's flag and categories by name, and every entry with its label if it has one |
| `PolicyMeaning.PresetExact` | packages/event-model/src/payload.ts:172-181 | The preset gates everything but permission changes, edits of secret files, external tools and production migrations |
| `PolicyMeaning.PathIsIgnored` | packages/event-model/src/path-scope.ts:83-88 | Only what follows the last slash or backslash of a label counts |
| `PolicyMeaning.ControlIsIgnored` | packages/event-model/src/path-scope.ts:83-88 | A control character in a label counts for nothing |
| `PolicyMeaning.OuterSpaceIsIgnored` | packages/event-model/src/path-scope.ts:83-88 | White space around a label counts for nothing |
| `PolicyMeaning.PlainIsCut` | packages/event-model/src/path-scope.ts:83-88 | A plain trimmed label is cut at 64 characters and otherwise kept; an empty one is none |
| `Csv.ReportReadsBack` | apps/backend/src/audit-contract.ts:283-335 | A reader of section 2 of RFC 4180 gets exactly the header and one row per session, each cell equal to its neutralised value, for all cell contents |
| `Csv.CellUnderName` | apps/backend/src/audit-contract.ts:283-335 | In the file as read back each session's row shows every field in the column of that name, prefixed by an apostrophe iff it starts like a formula |
| `Csv.NoFormulaCells` | apps/backend/src/audit-contract.ts:259-266 | No cell read from an export starts with a formula character |
| `Csv.TableReadsBack` | apps/backend/src/audit-contract.ts:259-335 | Any table without a row of one empty cell is read back exactly |
| `Csv.AuditReportToCsv` | apps/backend/src/audit-contract.ts:283-335 | The line loop produces that text, and it reads back |
| `Csv.CsvCell` | apps/backend/src/audit-contract.ts:259-266 | One cell reads back as the neutralised value |
| `Csv.KindsReadBack` | apps/backend/src/audit-contract.ts:273-278 | The folded counts can be read back, kinds being free of the separators |
| `Markers.LengthDifferenceExact` | apps/backend/src/audit-store.ts:60-62 | The length difference divides evenly and the quotient is the number of positions of the marker |
| `Markers.KnownKindsAtMostAll` | apps/backend/src/audit-store.ts:494-547 | The counts of distinct known kinds add up to at most the count of all markers |
| `Markers.RegexCountExact` | apps/backend/src/audit-store.ts:502-515 | Counting pattern matches is counting the positions at which some marker stands |
| `Markers.PatternExact` | apps/backend/src/audit-store.ts:494-515 | The pattern stands exactly where a marker with a nonempty name of lower-case letters, digits and hyphens stands |
| `Markers.DrillDown` | apps/backend/src/audit-store.ts:404-472 | The drill-down counts the marker's positions in each of the first events that have one, says whether there are more, and its total equals the headline iff there are none |
| `Markers.DrillDownSum` | apps/backend/src/audit-store.ts:404-547 | Unlimited, the per-event counts add up to the rederived headline, which counts the marker's positions in every event |
| `Paging.PagesAreComplete` | apps/backend/src/replay-store.ts:386-420 | Following the cursors gives the session's events in (timestamp, event id) order, none lost and none repeated, for any page size |
| `Paging.LivePagesLoseNothing` | apps/backend/src/replay-store.ts:386-420 | While rows are inserted between pages, what is read is in order and unrepeated, and when the pages end every row present at the start has been read |
| `Paging.LivePagesEnd` | apps/backend/src/replay-store.ts:386-420 | Paging ends as soon as more events could have been read than there are rows, however the table grows meanwhile |
| `Paging.PageAt` | apps/backend/src/replay-store.ts:386-420 | A page holds exactly the next events in order, and its cursor is the position after them |
| `Paging.BuildSessionReport` | apps/backend/src/realtime-server.ts:933-979 | The report holds exactly the first min(n, 10000) events and is marked truncated iff n exceeds 10000 |
| `SeqGap.GapIsLowerBound` | apps/backend/src/audit-store.ts:627-655 | For a sender numbering consecutively and any part received, the figure is non-negative, at most what was lost, and equal to it iff both ends arrived |
| `SeqGap.GapIsHoles` | packages/event-model/src/seq-drop.ts:65-71 | The formula counts the numbers missing between the least and the greatest received |
| `SeqGap.EvaluateSeqMissing` | packages/event-model/src/seq-drop.ts:91-99 | The figure is the number of holes, suppressed to zero iff there are more holes than distinct numbers received |
| `SeqGap.ProviderSumAdds` | packages/event-model/src/seq-drop.ts:91-99 | The sum is over all sessions, each with its own figure |
| `SeqGap.HolesExact` | packages/event-model/src/seq-drop.ts:36-72 | A hole is a number that did not arrive while a smaller and a greater one did |
| `SeqGap.ProviderSumBounded` | apps/backend/src/audit-store.ts:627-655 | After suppression a provider's sum is non-negative and at most the number of stored events, whatever was sent |
| `SeqGap.ProviderSumSound` | apps/backend/src/audit-store.ts:627-655 | For consecutively numbering senders the provider's sum is at most what was truly lost |
| `SeqGap.OnlyTheSetMatters` | packages/event-model/src/seq-drop.ts:36-49 | Neither order nor repetition of deliveries matters |

## Left out

- Transactions always commit in `IngestStore`: the cache is written before COMMIT (apps/backend/src/ingest-store.ts:701 and :315), so a rollback after it is not covered.
- A whole ingest is one atomic step in `IngestStore`. WebSocket messages are handled without being serialised (apps/backend/src/ingestion-server.ts:325-345), but each transaction first upserts its session's row (apps/backend/src/ingest-store.ts:249), whose lock the database holds until commit, so two ingests of one session do not overlap; ingests of different sessions touch different rows and cache entries.
- The sessions row, which is upserted before the duplicate check, and the monotonic-timestamp observer are outside the exactly-once claim; the session-state reducer is an arbitrary function.
- The bounded size of the work-items cache is covered only as "any entry may be evicted at any time".
- Command classification and redaction are arbitrary functions; the secret-path pattern is one of them.
- Tool inputs are JSON values with integer numbers; inputs that cannot be serialised are not modelled, and inherited property names (`constructor` and the like) in the codex method table are not.
- The free-text `reason` of a result and the re-rolling of request ids that the redactor would change; request ids are taken to be fresh.
- Timers fire at any moment in the models; the approval timeout's length and its ordering against the hook timeout are not modelled.
- Characters are Unicode scalar values, so lone surrogates do not occur, and the cut of a label at 64 counts scalar values rather than UTF-16 units; framing is over string chunks, so a multi-byte character split between two buffers is not modelled.
- Event ids are ordered by character value, not by a database collation.
- Manifest fields are typed; the normalisation of a report's records into manifest fields, base64 transport and the decoding of untrusted manifests are not modelled, and Ed25519 enters by its sign/verify law.
- The codex layer's `.catch` path (a card emitter or session-id provider that throws) and the display fields of a card.
- Events arriving while a report is being built: its bound and truncation flag are for a table fixed during one report (`Paging.LivePagesLoseNothing` covers paging itself).
- The listing of unexpired allowlist entries and the minting of request ids: easy members.
- File locks, atomic renames, file modes and JSON text: a locked section is one atomic step, a failed write is no step, and a file is a value. `PolicyStore` treats JSON objects as maps.
- Entries of the allowlist file with fields of the wrong type, which the reader drops, are not represented.
- `SidecarRegistry` leaves out control tokens, capabilities, counters and the relays themselves; the fan-out of policy changes appears only as every daemon seeing every change in the same order.
- In `ApprovalReconciler` the ownership of sessions by daemons is a condition on the receiving step, and the delivery of real resolved events is any removal of a row.
- HTTP and WebSocket routes, authentication, the web UI, HTML and Markdown rendering, audit totals, usage figures, the safety demo and the command line: plumbing or easy members.
- CodexBridge.ResolvedIsOwn: states attribution for the order in which the runner calls the layer, where nothing is accepted after exit (apps/sidecar/src/codex-runner.ts:360-372 and :678-683); the other results about the layer hold for any order.
- SidecarRegistry.PresenceAlternates: states alternation over runs for links open exactly while registered; for other schedules the steps that break it are characterised one by one.

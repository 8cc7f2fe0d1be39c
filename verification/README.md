# Verification of the ZephiPay execution core

A Dafny model of the parts of the repository whose correctness rests on interleavings, on several functions
together, or on a grammar, with proofs over every input and every run.

- **Devnet execution** (`Devnet*.dfy`). `DevnetStore` is the in-memory repository as a value, `DevnetRepository` the
  class over its maps and logs, each method proved to be one call of the store. `DevnetStoreInvariant` and
  `DevnetStoreRuns` hold what every call keeps and what no later call undoes. `DevnetProtocol` splits prepare,
  refresh, submit and reconcile at every await into processes that interleave freely and may crash;
  `DevnetSafety`, `DevnetReconcileRuns` and `DevnetHonestRuns` prove what those runs guarantee.
  `DevnetOutcomes`, `DevnetReports` and `DevnetPreparations` trace every record of a run to the step that caused it;
  `DevnetProgress` and `DevnetUninterrupted` say what an uninterrupted call comes to. `DevnetAnswers` is the exact
  condition of every store call, `DevnetStanding` the state a run of them leaves. `DevnetObservation` follows a status
  RPC answer, whatever it is, to the stored record, and `DevnetResponses` what it says to the stored state.
  `DevnetEvidenceSearch` and `DevnetTerminalRuns` are about the evidence a finished execution is reported with.
- **Strict JSON** (`Json*.dfy`). `JsonTokens` and `JsonGrammar` give RFC 8259 as concrete syntax trees that keep
  whitespace and escapes, and the reader as functions; `JsonReading` proves the two equal; `JsonReader` is the
  reader with its one cursor, loops and name sets; `JsonValues` is the parsed value and the exact-fields check.
  `JsonMeaning` says of texts and values alone which text denotes which value, and proves the reader equal to that;
  `JsonRendering` prints values and reads them back.
- **Sponsor finalization** (`Sponsor*.dfy`). `SponsorTables` holds the tables, `SponsorSteps` each transaction as a
  function on them, `SponsorClaim` the pure claim decision. `SponsorFences`, `SponsorLedger` and `SponsorBudgets`
  are the invariants of the attempt fences, of the signer rows and their ledgers, and of the shared budgets;
  `SponsorRuns` and `SponsorHistory` are about whole runs; `SponsorTriggers` sets the database's own guards against
  what the transactions write; `SponsorAuthority` is the evidence contact and expiry rest on; `SponsorContact` runs
  `recover` as crashable processes and `SponsorRecovery` without interruption; `SponsorAnswers` and `SponsorReplies`
  give the exact condition of every answer; `SponsorRepository` is the repository and the budget administration over one
  database. The SQL functions, guards and checks of migrations 023 to 025 are modelled from their text.
- **Smaller pieces.** `UsdcAmounts` over `Decimals`, `PolicyEncoding`, `PollingLoop` and `KeySnapshots`.

Classes are specified by functions on values; lemmas are about those functions. A universally quantified
invariant is a conjunction of named predicates, so that a proof instantiates it by naming the instance it needs.

## Where the code does less than one might expect

- The reconciliation service's terminal branch assumes that a finished execution has a matching last
  reconciliation observation. It has one iff no settled or rejected submission ended the execution
  (`DevnetTerminalRuns.TerminalBranchSupportsIff`). The transport's declared answers include "settled"; after one
  the branch throws if nothing was reconciled before, and otherwise returns an observation that is not terminal.
  On the assumption that the transport accepts or throws and never answers settled, the branch is always right
  (`DevnetTerminalRuns.TerminalBranchSupports`).
- The polling loop keeps a single activity iff `start` is never called while an iteration cut off by `stop` still
  runs (`PollingLoop.SingleActivityIffNoOverlap`); otherwise a timer can be left that no `stop` cancels.
- An incident freezes an operation against contact, expiry, refusal and settlement alike: a refusal the signer sends
  after it is not recorded, and the exposure stays uncertain (`SponsorTriggers.FreezeRefusesIff`, and a run in
  `SponsorFrozenRefusal`).
- Budget revisions may lower limits below the current charge. A family stays within its limits iff every revision
  covers the charge of its moment (`SponsorRuns.FitsThroughoutIff`); `SponsorShrunkBudget` is a run where one does
  not.

## Model

| member | source | states |
|---|---|---|
| DevnetRepository.InMemoryDevnetExecutionStateRepository.PersistPreparation | src/storage/memory/inMemoryDevnetExecutionStateRepository.ts:11-16 | One atomic call: state and answer are those of the store function, and validity is kept; artifact check before uniqueness before the one-active rule. |
| DevnetRepository.InMemoryDevnetExecutionStateRepository.ReplaceExpiredPreparation | src/storage/memory/inMemoryDevnetExecutionStateRepository.ts:18-28 | Abandons the never-contacted prior in place and appends its successor, or refuses with the first failing check and changes nothing. |
| DevnetRepository.InMemoryDevnetExecutionStateRepository.CommitSubmission | src/storage/memory/inMemoryDevnetExecutionStateRepository.ts:30-43 | Grants submission authority to exactly the call that stores the commitment; a repeated identical request is answered without authority. |
| DevnetRepository.InMemoryDevnetExecutionStateRepository.RecordReconciliationObservation | src/storage/memory/inMemoryDevnetExecutionStateRepository.ts:47-55 | Appends the next numbered observation with its lifecycle step, or answers with the latest entry, or refuses; the whole new state is given. |
| DevnetRepository.InMemoryDevnetExecutionStateRepository.RecordSubmissionObservation | src/storage/memory/inMemoryDevnetExecutionStateRepository.ts:57 | Appends a submission observation and its lifecycle step to the committed execution only, or refuses. |
| DevnetRepository.InMemoryDevnetExecutionStateRepository.FindActive | src/storage/memory/inMemoryDevnetExecutionStateRepository.ts:62 | The loop finds the first non-abandoned preparation in insertion order. |
| DevnetRepository.InMemoryDevnetExecutionStateRepository.AssertUnique | src/storage/memory/inMemoryDevnetExecutionStateRepository.ts:63 | The loop reports the first stored conflict in insertion order: id, then signature, then digest. |
| DevnetRepository.InMemoryDevnetExecutionStateRepository.ListReconciliationObservations | src/storage/memory/inMemoryDevnetExecutionStateRepository.ts:56 | Only the owner of the live preparation is shown the execution's log. |
| DevnetStoreInvariant.ActiveIsTheLiveOne | src/storage/memory/inMemoryDevnetExecutionStateRepository.ts:62 | In a valid store the search returns the unique live preparation of an execution, and nothing only if the execution has no preparation at all. |
| DevnetStoreInvariant.ApplyValid | src/storage/memory/inMemoryDevnetExecutionStateRepository.ts:11-57 | Every repository call keeps the whole invariant: unique ids, signatures and digests, one chain per execution, commitments matching the live preparation, logs agreeing with the state. |
| DevnetStoreRuns.RunValid | src/storage/memory/inMemoryDevnetExecutionStateRepository.ts:11-57 | Every reachable store satisfies that invariant, so what is stated of valid states below holds in every reachable one. |
| DevnetStoreRuns.ExactlyOneLive | src/storage/memory/inMemoryDevnetExecutionStateRepository.ts:13-27 | In every valid state an execution with any preparation has exactly one that is not abandoned, and it has the highest generation. |
| DevnetStoreRuns.GenerationsAreConsecutive | src/storage/memory/inMemoryDevnetExecutionStateRepository.ts:23 | Between any stored generation of an execution and the live one every generation is occupied, by exactly one preparation. |
| DevnetStoreRuns.CommitmentIffPastContact | src/storage/memory/inMemoryDevnetExecutionStateRepository.ts:38-41 | A commitment exists iff the live preparation is past PREPARED_NOT_CONTACTED, and it carries that preparation's id, signature and digest. |
| DevnetStoreRuns.StateAgreesWithLogs | src/storage/memory/inMemoryDevnetExecutionStateRepository.ts:51-57 | SETTLED iff a log holds a settled observation, FAILED iff one holds a failed or rejected one, and the two logs together hold exactly one terminal observation in a terminal state and none otherwise. |
| DevnetStoreRuns.LogsAreNumbered | src/storage/memory/inMemoryDevnetExecutionStateRepository.ts:51-53 | Reconciliation logs are numbered 1..n, observation ids are distinct, no entry repeats its predecessor, and all carry the committed signature. |
| DevnetStoreRuns.RunExtends | src/storage/memory/inMemoryDevnetExecutionStateRepository.ts:11-57 | Over all later calls preparations keep identity and artifact, abandoned and terminal ones never change, logs only grow and are frozen once terminal, commitments are permanent and end preparing. |
| DevnetStoreRuns.UnchangedIff | src/storage/memory/inMemoryDevnetExecutionStateRepository.ts:11-57 | A repository call leaves the store exactly as it was iff it is rejected or answered from what is stored already. |
| DevnetStoreRuns.RepeatedPollingIsIdempotent | src/storage/memory/inMemoryDevnetExecutionStateRepository.ts:51 | After any calls that add nothing to the execution's reconciliation log, recording the same chain state again answers with the recorded observation and leaves the store unchanged. |
| DevnetAnswers.StorableIff | src/devnet/devnetExecutionState.ts:98-107 | An artifact passes its checks iff every field is what the checks ask for: separate trimmed providers, devnet, generation and amount positive, full-length digests, a 96-bit vector and a 128-bit tag. |
| DevnetAnswers.PersistAcceptsIff | src/storage/memory/inMemoryDevnetExecutionStateRepository.ts:11-16 | A first preparation is stored iff it is well formed, its id, signature and digest are unused, and its execution has no preparation. |
| DevnetAnswers.ReplaceAcceptsIff | src/storage/memory/inMemoryDevnetExecutionStateRepository.ts:18-28 | A replacement is stored iff it is well formed and unused, and follows by one generation the live, never committed preparation of the same execution and owner. |
| DevnetAnswers.FoundIff | src/storage/memory/inMemoryDevnetExecutionStateRepository.ts:45-46 | A preparation or commitment is shown iff it is that of the execution's live preparation and the actor owns it. |
| DevnetAnswers.CommitGrantsIff | src/storage/memory/inMemoryDevnetExecutionStateRepository.ts:30-43 | Authority is granted iff the caller owns the execution's live, never committed preparation; the commitment then holds the request and the prepared signature and digest; a committed execution only repeats its answer to the same request. |
| DevnetAnswers.SubmissionIsRecordedIff | src/storage/memory/inMemoryDevnetExecutionStateRepository.ts:57 | A submission is appended iff it is well formed, names preparation, owner, commitment, signature and provider in full, nothing has ended the execution and its id is new. |
| DevnetAnswers.ObservationIsRecordedIff | src/storage/memory/inMemoryDevnetExecutionStateRepository.ts:47-55 | An observation naming owner, preparation, signature and provider is answered from the log iff the last entry ended the execution or says the same, and appended iff it is new, in time and under a new id. |
| DevnetStanding.CallDecidesStanding | src/devnet/devnetExecutionState.ts:109-135 | After one call a committed execution is pending iff the call records an acknowledgement, or it was pending and the call records nothing for it but an uncertain submission. |
| DevnetStanding.PendingIffAcknowledged | src/devnet/devnetExecutionState.ts:109-135 | Over every run a committed execution is ACCEPTED_PENDING iff a pending observation or an accepted submission was recorded for it and nothing since but submissions whose own outcome is unknown. |
| DevnetStanding.StandingFromRecords | src/devnet/devnetExecutionState.ts:109-135 | Over every run each of the five states of a committed execution is determined by what was recorded for it. |
| DevnetSafety.TakeKeepsSafe | src/devnet/devnetOrchestrationService.ts:50-82 | One step of any process, or a crash, keeps the safety invariant: at most one holder of the one-shot authority per execution, contact only under its commitment. |
| DevnetSafety.RunIsSafe | src/devnet/devnetOrchestrationService.ts:50-82 | Every state reached by any interleaving of processes and crashes satisfies the safety invariant. |
| DevnetSafety.SubmittedAtMostOnce | src/devnet/devnetOrchestrationService.ts:67-77 | Over every interleaving of prepare, refresh, submit and reconcile processes, each crashable at any await, the provider is reached at most once per execution and never twice with bytes of one digest. |
| DevnetSafety.ContactFollowsCommitment | src/devnet/devnetOrchestrationService.ts:71-75 | A step that reaches the provider finds the commitment already stored for the live preparation, and sends bytes whose digest is the committed one. |
| DevnetSafety.AtMostOneSubmissionRecorded | src/e2e/devnetInvariantEngine.ts:16 | Runs driven by these clients record at most one submission observation per execution. |
| DevnetSafety.ContactsDiffer | src/devnet/devnetOrchestrationService.ts:67-77 | In any safe state two provider contacts are for different executions and send bytes of different digests. |
| DevnetOutcomes.EntriesHaveCauses | src/devnet/devnetOrchestrationService.ts:67-77 | Over every run an entry of an accepted contact is what the provider answered that execution's own send; an entry of a contact that may have occurred is UNKNOWN and comes from a send, answer or record that failed; an entry of a contact not started comes from committed bytes that do not read back. |
| DevnetOutcomes.FateDecides | src/devnet/devnetOrchestrationService.ts:71-77 | Whatever follows: after a thrown or undelivered send only UNKNOWN is recorded, after an answer only that answer or UNKNOWN, after unreadable bytes only VALIDATION_FAILED, after a crash or a lost authority nothing; and the execution is never sent again. |
| DevnetProgress.UninterruptedSubmit | src/devnet/devnetOrchestrationService.ts:67-77 | From every reachable state an uninterrupted submit call of the owner sends the decrypted bytes exactly once and records exactly one outcome, the provider's sound answer or UNKNOWN; nothing is sent when the bytes do not read back or authorisation fails. |
| DevnetUninterrupted.UninterruptedPrepare | src/devnet/devnetOrchestrationService.ts:50-53 | From every reachable state an uninterrupted prepare call stores its signed artifact, encrypted under its own ids, iff the command matches and the store may take it; otherwise nothing changes. |
| DevnetUninterrupted.UninterruptedRefresh | src/devnet/devnetOrchestrationService.ts:59-65 | An uninterrupted refresh call of the owner abandons the prior and stores the next generation iff the blockhash has expired, the command matches and the artifact may be stored; otherwise nothing changes. |
| DevnetUninterrupted.UninterruptedReconcile | src/devnet/devnetReconciliationService.ts:27-51 | An uninterrupted reconcile call of the owner polls about the committed signature and appends what the provider answered iff it is new and well formed and the lease was kept throughout. |
| DevnetUninterrupted.StrangerStops | src/devnet/devnetOrchestrationService.ts:60-70 | Without a never contacted preparation of the caller's own a submit or refresh call changes nothing. |
| DevnetUninterrupted.StrangerPollsNothing | src/devnet/devnetReconciliationService.ts:28-31 | Without a committed preparation of the caller's own under separate providers a reconcile call changes and polls nothing. |
| DevnetUninterrupted.DisabledSubmitStops | src/devnet/devnetOrchestrationService.ts:69 | With submission switched off a submit call changes nothing. |
| DevnetPreparations.PreparationsHaveCauses | src/devnet/devnetOrchestrationService.ts:50-65 | Over every run a stored preparation was asked for with a matching command, or by a refresh for the next generation, and then signed once; an abandoned one had been reported expired to a refresh. |
| DevnetReports.ObservationsHaveCauses | src/devnet/devnetReconciliationService.ts:27-51 | Over every run an observation on record is what one poll about the committed signature answered under a held lease: a sound sighting as it is, anything else as UNKNOWN with the code that says why. |
| DevnetReconcileRuns.AttestedRecordIsRefusedIff | src/storage/memory/inMemoryDevnetExecutionStateRepository.ts:47-52 | A record naming the committed preparation is refused iff it is malformed, or the state became terminal by submission alone, or its observation id is used already. |
| DevnetReconcileRuns.ReconcileIsRefusedIff | src/devnet/devnetReconciliationService.ts:27-51 | Over every run, a reconcile process working on snapshots several awaits old still names the committed preparation, owner, provider and signature when it records, and is refused only for those reasons. |
| DevnetHonestRuns.PersistenceReadsBack | src/devnet/devnetOrchestrationService.ts:84-85 | Bytes encrypted under an identity are reconstructed under the same identity when the preparer reported their digest. |
| DevnetHonestRuns.CommittedBytesAlwaysReadBack | src/devnet/devnetOrchestrationService.ts:73 | With a lawful cipher and an honest preparer every stored preparation reads back in every reachable state, so no run ever records VALIDATION_FAILED. |
| DevnetEvidenceSearch.TerminalEvidenceIsFound | src/devnet/browserDevnetExecution.ts:57 | Reading the preparation and the two logs at three moments of one run, the projection's search finds an observation whenever the preparation read was terminal, and it shows that outcome; so the missing-evidence error cannot occur. |
| DevnetEvidenceSearch.ServiceEvidenceSupports | src/devnet/devnetReconciliationService.ts:32 | The reconciliation service's own terminal branch reports evidence for the stored outcome iff the submission log does not end in a settled or rejected submission. |
| DevnetTerminalRuns.TerminalBranchSupportsIff | src/devnet/devnetReconciliationService.ts:32 | Over every run, a reconcile process in that branch reports an observation of the stored outcome iff no settled or rejected submission ended the execution. |
| DevnetTerminalRuns.TerminalBranchSupports | src/devnet/devnetReconciliationService.ts:32 | Over every run whose transport accepts or throws and never answers settled, the branch always reports the stored outcome. |
| DevnetTerminalRuns.SettledBySubmissionHasNoServiceEvidence | src/devnet/devnetReconciliationService.ts:32 | A concrete run of prepare, submit and reconcile processes with a transport that answers settled: the reconcile process reaches the branch and has no observation to return. |
| DevnetObservation.ObservationsAreAccepted | src/adapters/solana/liveDevnetProviders.ts:14-22 | Whatever value the status RPC returns, decoding throws or yields an observation the reconciliation service accepts. |
| DevnetResponses.ObservedIffSaid | src/adapters/solana/liveDevnetProviders.ts:14 | Decoding tells a report iff the response says it: missing iff its one status is null, pending iff processed or confirmed, settled iff finalized without an error, failed iff finalized with a supported one, with the slots returned; it throws iff the response says none of these or its slot is past the context. |
| DevnetResponses.RecordedIffSaid | src/devnet/devnetReconciliationService.ts:35-43 | The record built from a response holds what the response says, slot and confirmation included, and is an invalid-response record iff the response says nothing. |
| DevnetResponses.ResponseDecidesState | src/devnet/devnetReconciliationService.ts:33-51 | A recorded response leaves the execution SETTLED, FAILED or ACCEPTED_PENDING as it says, and UNKNOWN_RECONCILIATION_REQUIRED when it says missing or nothing. |
| DevnetObservation.TokenIsProviderCode | src/adapters/solana/devnetJsonRpc.ts:10 | Normalising any text, whatever upper-casing does, yields 1 to 64 allowed characters. |
| DevnetObservation.RunsCollapse | src/adapters/solana/devnetJsonRpc.ts:10 | Allowed characters are kept and each maximal run of others becomes one underscore. |
| DevnetObservation.CodesAreKept | src/adapters/solana/devnetJsonRpc.ts:10 | A text that already is a code without underscores at its ends is its own token. |
| DevnetObservation.ProviderErrorReachesEvidence | src/adapters/solana/devnetJsonRpc.ts:9-10 | The sanitised code of any provider error object passes unchanged through the service into accepted evidence. |
| DevnetObservation.EveryRecordPasses | src/devnet/devnetReconciliationService.ts:33-67 | On every path, error paths included, the record that is built passes the evidence check iff provider id, signature and fence are well formed and, on the paths that use it, so is the clock. |
| JsonTokens.CloseOf | src/economic/foundation/strictJson.ts:9-17 | The scan for a literal's end stops at its own closing quote, never at a quote inside an escape. |
| JsonTokens.StringSound | src/economic/foundation/strictJson.ts:9-17 | A literal the scan accepts is a string of section 7 of RFC 8259 followed by what the scan leaves. |
| JsonTokens.StringComplete | src/economic/foundation/strictJson.ts:9-17 | Every string of section 7 of RFC 8259 is scanned whole and decoded piece by piece. |
| JsonTokens.HexNamesEveryUnit | src/economic/foundation/strictJson.ts:3-13 | Every code unit has a four-digit alias that decodes to it, so the duplicate check on decoded names sees through escaped aliases. |
| JsonTokens.EveryTextHasALiteral | src/economic/foundation/strictJson.ts:9-17 | Every text, control characters and lone surrogates included, has a literal that the scan reads back as it. |
| JsonTokens.ScalarSound | src/economic/foundation/strictJson.ts:45-47 | What the pattern matches is a word or a number of section 6 of RFC 8259. |
| JsonTokens.ScalarComplete | src/economic/foundation/strictJson.ts:45-47 | Every word and number is matched whole wherever a value may end after it. |
| JsonReading.ReadSound | src/economic/foundation/strictJson.ts:18-48 | A value that is read spells a well-formed tree after its leading whitespace; in strict mode with distinct names and within the depth. |
| JsonReading.ReadComplete | src/economic/foundation/strictJson.ts:18-48 | Every well-formed tree within the rules is read back exactly, from any layout and before any legal continuation. |
| JsonReading.AvoidsJoined | src/economic/foundation/strictJson.ts:32-34 | Checking each name against those before it is checking that all names of the object are distinct. |
| JsonReading.Unambiguous | src/economic/foundation/strictJson.ts:4-52 | A text has at most one tree in the grammar of sections 2 to 7 of RFC 8259. |
| JsonReading.AcceptedIffDerivable | src/economic/foundation/strictJson.ts:4-52 | The reader accepts a text iff the grammar derives it with distinct decoded names per object and no value below depth 24. |
| JsonReading.AcceptedIffWithin | src/economic/foundation/strictJson.ts:19-33 | A text of the grammar is refused iff some object repeats a decoded name or a value lies deeper than 24. |
| JsonReading.TextComplete | src/economic/foundation/strictJson.ts:4-52 | Printing any tree within the rules with any whitespace and escapes and reading it gives the tree back. |
| JsonReading.ClosingParseNeverFails | src/economic/foundation/strictJson.ts:50-51 | JSON.parse accepts exactly the grammar, so after the reader accepts it cannot fail, and it sees the same tree. |
| JsonMeaning.PieceSpells | src/economic/foundation/strictJson.ts:9-17 | Every accepted piece of a literal spells its meaning: a printable unit itself, a short escape its control or punctuation unit, four hexadecimal digits their value. |
| JsonMeaning.SpellsPiece | src/economic/foundation/strictJson.ts:9-17 | Whatever spells a unit in one of those three ways is accepted and means that unit. |
| JsonMeaning.ReadsIffDenotes | src/economic/foundation/strictJson.ts:4-52 | A text is accepted and parsed to a value iff it denotes the value within the depth, denotation being said of texts and values alone: letters of the words, the number's own lexeme, units however spelled, elements in order, members under distinct names in any order, whitespace anywhere between. |
| JsonMeaning.DenotesOne | src/economic/foundation/strictJson.ts:51 | No text denotes two values. |
| JsonRendering.PrintedIsRead | src/economic/foundation/strictJson.ts:4-52 | Every value within the depth is read back from its printed text, the printer being defined on values alone. |
| JsonRendering.YieldedIffFits | src/economic/foundation/strictJson.ts:4-52 | A value is what some accepted text yields iff its numbers are well formed and nothing in it is nested deeper than 24. |
| JsonValues.NoMemberIsLost | src/economic/foundation/strictJson.ts:33-34 | With distinct names every member of an object keeps its own value in the parsed record. |
| JsonValues.ElementsInOrder | src/economic/foundation/strictJson.ts:51 | The parsed array holds the values of its elements in order. |
| JsonValues.ExactObjectIff | src/economic/foundation/strictJson.ts:54-59 | For distinct expected keys the check accepts iff the value is an object with exactly those fields. |
| JsonReader.Scanner.Whitespace | src/economic/foundation/strictJson.ts:8 | The loop leaves the cursor after the longest run of whitespace. |
| JsonReader.Scanner.String | src/economic/foundation/strictJson.ts:9-17 | The loop with its skip after backslashes computes the literal's meaning or its error, and the cursor after it. |
| JsonReader.Scanner.Members | src/economic/foundation/strictJson.ts:28-43 | The loop over members, with its growing name set, ends where the recursive reading ends or with its error. |
| JsonReader.Scanner.Value | src/economic/foundation/strictJson.ts:18-48 | The cursor method terminates on every input and refines the reading function. |
| JsonReader.ParseEconomicJson | src/economic/foundation/strictJson.ts:4-52 | Size limit, decoding, scan, trailing input and closing parse together return a value iff the bytes fit and decode to a text that denotes it. |
| JsonReader.ParsedIff | src/economic/foundation/strictJson.ts:4-52 | A value is specified as the result iff the bytes fit the limit and decode to a text that denotes it within the depth. |
| JsonReader.PrintedIsParsed | src/economic/foundation/strictJson.ts:4-52 | Bytes of the printed text of a value within the depth and the size limit parse to that value. |
| SponsorRepository.Database.UpdateFinalization | migrations/025_trusted_authority_composition.sql:56-65 | The UPDATE of a finalization row with its ledger entries takes effect as a whole, or is refused by the freeze guard and leaves everything. |
| SponsorRepository.PostgresFinalizationRepository.RegisterAttempt | src/economic/foundation/postgresFinalizationRepository.ts:57-88 | The transaction computes the registration step: replay, first generation, or replacement of a cancelled predecessor, or its refusal, and keeps the invariant. |
| SponsorRepository.PostgresFinalizationRepository.CancelAttempt | src/economic/foundation/postgresFinalizationRepository.ts:90-105 | The transaction closes the current attempt's fence unless finalization has won. |
| SponsorRepository.PostgresFinalizationRepository.TryClaim | src/economic/foundation/postgresFinalizationRepository.ts:113-159 | The claim's transaction either answers with the attempt's stored operation or reserves exposure and commits the fence, all or nothing. |
| SponsorRepository.PostgresFinalizationRepository.ClaimFinalization | src/economic/foundation/postgresFinalizationRepository.ts:108-176 | An artifact of the wrong size changes nothing; any other rejected claim changes nothing but its callback evidence and, when it contradicts an operation, that operation's incident. |
| SponsorRepository.PostgresFinalizationRepository.CommitSignerContact | migrations/024_pre_signer_operational_authority.sql:274-299 | The contact is granted to one call: under the fence, with no reason against it, a session of the principal no younger than its authentication, and no contradiction; its ledger entry names operation and tuple. |
| SponsorRepository.PostgresFinalizationRepository.AcceptSignerResponse | src/economic/foundation/postgresFinalizationRepository.ts:288-325 | A well-formed response bound to the operation becomes its result, repeats it, or is refused; the whole new row is given. |
| SponsorRepository.PostgresFinalizationRepository.RecordSignerUnknown | migrations/024_pre_signer_operational_authority.sql:334-345 | An unknown outcome is recorded only over contact without a result. |
| SponsorRepository.PostgresFinalizationRepository.ExpireNeverContacted | migrations/024_pre_signer_operational_authority.sql:301-332 | Only a never-contacted, uncontradicted operation with a reason to end is expired; its record holds the reasons and exactly what it had reserved. |
| SponsorRepository.PostgresFinalizationRepository.SettleExposure | src/economic/foundation/postgresFinalizationRepository.ts:328-348 | Nothing without a verified result; an observer that does not know changes nothing; otherwise the evidence is recorded and then applied. |
| SponsorRepository.PostgresFinalizationRepository.RecordEffect | migrations/024_pre_signer_operational_authority.sql:347-361 | Effect evidence is accepted only beside the exact signed result, within the requested amounts, and never replaced. |
| SponsorRepository.PostgresFinalizationRepository.RecordPossibleEffect | migrations/024_pre_signer_operational_authority.sql:347-361 | Possible-effect evidence is accepted for any operation of its network that has not expired, and never replaced. |
| SponsorRepository.PostgresFinalizationRepository.ApplyFinalizedAccounting | migrations/024_pre_signer_operational_authority.sql:362-377 | The evidence becomes the realised charge once; repeating it is answered, contradicting it is refused. |
| SponsorRepository.TrustedRegistryAdministration.InstallSponsorBudget | src/economic/foundation/trustedRegistry.ts:52-63 | A new family with its first version on a registered network in effect, or a refusal. |
| SponsorRepository.TrustedRegistryAdministration.SetStatus | src/economic/foundation/trustedRegistry.ts:66-75 | Compare-and-set on the revision; an unchanged status keeps the revision. |
| SponsorRepository.TrustedRegistryAdministration.Revise | src/economic/foundation/trustedRegistry.ts:77-89 | Compare-and-set on the revision; the next version becomes current. |
| SponsorFences.RegisteredIsCurrent | src/economic/foundation/postgresFinalizationRepository.ts:57-88 | The answered digest names the intent's current attempt, with the registered owner, message and blockhash; a new one is open and carries the whole envelope. |
| SponsorFences.ClaimEffect | src/economic/foundation/postgresFinalizationRepository.ts:108-159 | A claim that writes anything had an open current attempt without a finalization, and its row carries the attempt's identity and limits, the consent, and a customer signature the artifact really shows. |
| SponsorHistory.StaleAdministrationIsRefused | src/economic/foundation/trustedRegistry.ts:65-89 | Once a family's revision has passed the expected one, no later request with it changes the family, whatever happened in between. |
| SponsorHistory.OneAdministratorWins | src/economic/foundation/trustedRegistry.ts:65-89 | Of two requests made at one revision of a family at most one ever changes anything, over any run between and after them. |
| SponsorRuns.RunValid | src/economic/foundation/postgresFinalizationRepository.ts:57-348 | Every reachable state satisfies the fence, ledger and budget invariants together; what is stated of valid states below holds in every reachable one. |
| SponsorRuns.LowerGenerationsAreCancelled | migrations/023_trusted_economic_finalization.sql:190-200 | In every reachable state generations have no gaps and everything below an intent's current generation is cancelled without a finalization. |
| SponsorRuns.FinalizationIffCommitted | migrations/023_trusted_economic_finalization.sql:229-257 | An attempt is committed iff it has a finalization, which carries its identity, digests, exposure and limits. |
| SponsorRuns.OneFinalizationPerIntent | src/economic/foundation/postgresFinalizationRepository.ts:134-155 | An intent has at most one finalization ever, across all its generations. |
| SponsorHistory.CancelledIsNeverClaimed | src/economic/foundation/postgresFinalizationRepository.ts:100-103 | After an answer CANCELLED no continuation of the run ever claims that generation. |
| SponsorHistory.ClaimedIsNeverCancelled | src/economic/foundation/postgresFinalizationRepository.ts:96-99 | After a claim no continuation ever cancels that generation or gives it another finalization. |
| SponsorHistory.ClaimRefinesDecision | src/economic/sponsorFinalizationContract.ts:31-59 | A successful claim has the disposition, operation and resulting fence of the pure decision on the same lookups; so what the pure decision rejects the claim rejects. Assumes tuple digests without collisions. |
| SponsorAnswers.ClaimAcceptsIff | src/economic/foundation/postgresFinalizationRepository.ts:127-159 | The claim accepts iff the pure decision does and, for a new operation, it is eligible, its signer operation id is fresh, its sponsor has an active budget, and that has room: charge plus maximum within base, priority and rent, and fewer outstanding than the limit. |
| SponsorAnswers.BudgetAnswers | src/economic/foundation/postgresFinalizationRepository.ts:148-152 | A new claim is refused as disabled iff its sponsor has no active budget, and as exhausted iff the active one has no room for its maxima or for one more reserved or uncertain operation. |
| SponsorAnswers.OutstandingIsHeld | src/economic/foundation/postgresFinalizationRepository.ts:180-185 | The number of outstanding operations a family is charged is the number of its rows still reserved or uncertain. |
| SponsorAnswers.BudgetDecidesClaim | src/economic/foundation/postgresFinalizationRepository.ts:142-160 | A claim that lacks at most a budget answers disabled, exhausted or created exactly as the sponsor's budget stands. |
| SponsorAnswers.ClaimAnswers | src/economic/foundation/postgresFinalizationRepository.ts:113-160 | A claim is accepted iff the stored rows say so: a customer-signed artifact of the current, not cancelled attempt, which is either finalized over this very tuple or open, new, eligible and within the budget. |
| SponsorAnswers.ClaimDisposition | src/economic/foundation/postgresFinalizationRepository.ts:134-160 | An accepted claim answers with the generation's one finalization: created iff there was none, replayed iff it has the claimed id, converged otherwise. |
| SponsorAnswers.CancelAnswers | src/economic/foundation/postgresFinalizationRepository.ts:90-105 | A cancellation is refused iff owner, generation or token does not match; otherwise finalization has won iff the generation has a finalization, and else the attempt is cancelled and nothing else changes. |
| SponsorReplies.RegisterAnswers | src/economic/foundation/postgresFinalizationRepository.ts:57-88 | A registration is accepted iff it repeats the current attempt exactly, or is eligible, new in every index, and the first generation or the successor of the owner's cancelled one; then exactly that open attempt is added and becomes current. |
| SponsorReplies.ContactGrantedIff | migrations/024_pre_signer_operational_authority.sql:274-299 | Contact is granted iff nobody has had it, nothing the operation rests on has lapsed, the session is the owner's own and no younger than its authentication, nothing speaks against the operation and nothing froze it; only the row and its ledger entry change. |
| SponsorReplies.ExpiredIff | migrations/024_pre_signer_operational_authority.sql:301-332 | Exposure is reclaimed iff nobody contacted the signer, something the operation rests on has lapsed, nothing speaks against it and nothing froze it; only the row and its expiry record change. |
| SponsorReplies.AnswerAcceptedIff | src/economic/foundation/postgresFinalizationRepository.ts:288-325 | While an operation waits, an answer that identifies it is accepted iff it is unknown, an unfrozen refusal with a reference, or the completed artifact with the customer's signature; the row becomes just that. |
| SponsorReplies.UnknownRecordedIff | migrations/024_pre_signer_operational_authority.sql:334-345 | An unknown result is recorded iff there was contact and no result; without contact no answer is accepted either. |
| SponsorReplies.ObservedIff | migrations/024_pre_signer_operational_authority.sql:347-361 | Finalized evidence is accepted iff it is of the signed transaction and network, within what was requested, and the first or the same under its reference. |
| SponsorReplies.PossibleObservedIff | migrations/024_pre_signer_operational_authority.sql:347-361 | Evidence of a possible effect is accepted iff the operation is of its network and has not expired, and its reference is new. |
| SponsorReplies.SettledIff | migrations/024_pre_signer_operational_authority.sql:362-377 | Accounting is applied iff finalized evidence of the signed transaction is there and the operation is neither settled nor frozen; the row then holds exactly the observed amounts. |
| SponsorReplies.RejectionFreezesIff | src/economic/foundation/postgresFinalizationRepository.ts:162-174 | A rejected claim freezes its generation's finalization iff its artifact carries the attempt's message with unreadable signatures or already has the sponsor's; of the tables only that evidence changes. |
| SponsorReplies.InstalledIff | src/economic/foundation/trustedRegistry.ts:52-63 | A budget is installed, active and at revision one, iff its limit is positive, its network in effect, and neither the id nor the sponsor has a budget. |
| SponsorReplies.StatusSetIff | src/economic/foundation/trustedRegistry.ts:66-75 | Whoever names the current revision sets the status; the revision moves on iff the status changes, and other families keep theirs. |
| SponsorReplies.RevisedIff | src/economic/foundation/trustedRegistry.ts:77-89 | Whoever names the current revision adds exactly the next version with the new limits, which becomes current. |
| SponsorRecovery.UninterruptedRecover | src/economic/foundation/postgresFinalizationRepository.ts:215-270 | From every reachable state an uninterrupted recover call calls finalize iff it is granted contact; its answer becomes the result when the row can take it, an answer it cannot take leaves the result unknown and the operation frozen, and no answer leaves it unknown. |
| SponsorHistory.RunExtends | migrations/024_pre_signer_operational_authority.sql:168-193 | Over all later calls closed fences, signer results, expired rows, settled charges and ledger entries never change. |
| SponsorHistory.SignerResultIsFinal | src/economic/foundation/postgresFinalizationRepository.ts:296-323 | RESULT_AVAILABLE and REFUSED are exclusive and permanent, and a refusal has released its exposure. |
| SponsorLedger.ResultsAreNotRevised | src/economic/foundation/postgresFinalizationRepository.ts:296-319 | Once there is a result no response changes it; a response is accepted iff it is bound and unknown or repeats the result. |
| SponsorLedger.ResponseReplays | src/economic/foundation/postgresFinalizationRepository.ts:288-325 | Hearing the same refusal or signature twice answers the same and changes nothing the second time. |
| SponsorLedger.AcceptProposes | migrations/024_pre_signer_operational_authority.sql:154-193 | Whatever a signer answers, the write issued passes the update guard and the lifecycle check and agrees with the ledgers. |
| SponsorRuns.StatesAgreeWithLedgers | migrations/024_pre_signer_operational_authority.sql:207-222 | Contacted iff in the contact ledger, expired iff in the expiry ledger, never both; refused and expired rows charge nothing; finalized accounting evidence exists only beside a signed result, and no effect evidence beside an expiry. |
| SponsorTriggers.WritesPassGuards | migrations/024_pre_signer_operational_authority.sql:154-222 | No write of a finalization that a transaction issues is one the lifecycle check, the update guard, the authority guard or the capacity trigger would refuse, frozen or not. |
| SponsorTriggers.OthersKeepRows | migrations/024_pre_signer_operational_authority.sql:168-193 | Every call that issues no such write leaves the stored finalizations as they were. |
| SponsorTriggers.FreezeRefusesIff | migrations/025_trusted_authority_composition.sql:56-65 | The freeze guard refuses an issued write iff an incident is on record for the operation and the call contacts, expires, refuses or settles; recording an unknown or a signed result always passes. |
| SponsorTriggers.FrozenIff | migrations/025_trusted_authority_composition.sql:56-65 | A call answers that the operation is frozen exactly then, and leaves everything as it was. |
| SponsorFrozenRefusal.FrozenRefusalIsLost | src/economic/foundation/postgresFinalizationRepository.ts:302-308 | A concrete run: contact committed, a second claim with an unreadable artifact rejected, then a bound refusal by the signer. Its write is issued, the freeze guard refuses it, and the exposure stays uncertain. |
| SponsorFrozenRefusal.RepeatedClaimIsRejected | src/economic/foundation/postgresFinalizationRepository.ts:160-175 | The second claim of that run is rejected, and its evidence is of the kind that freezes the operation. |
| SponsorTriggers.InsertPassesTriggers | migrations/024_pre_signer_operational_authority.sql:194-222 | A row a claim inserts is in the initial state, bound to its committed attempt, and within its version's and its family's capacity. |
| SponsorTriggers.AttemptsPassGuards | migrations/023_trusted_economic_finalization.sql:179-189 | Whatever is called, an attempt only goes from open to cancelled or committed, and nothing else of it changes. |
| SponsorTriggers.HeadsPassGuards | migrations/023_trusted_economic_finalization.sql:190-200 | Whatever is called, a head stays or moves on by one generation past a cancelled attempt. |
| SponsorAuthority.ReasonsHold | migrations/024_pre_signer_operational_authority.sql:240-272 | A reason is listed iff its row says so: revoked or expired network, asset, intent, account, consent, runtime or session, a missing session being none. |
| SponsorAuthority.NoGrantOnceInvalidated | migrations/024_pre_signer_operational_authority.sql:254-284 | Over a run whose readings of an operation only age, once a reason other than an inactive account has been read no later call is granted contact. |
| SponsorAuthority.NoContactOnceInvalidated | migrations/024_pre_signer_operational_authority.sql:254-293 | Over such a run the operation is in the contact ledger afterwards only if it was there when the reason was read. |
| SponsorAuthority.LedgersHaveReadings | migrations/024_pre_signer_operational_authority.sql:284-327 | Over any run, every contact on record was granted on a reading against which nothing holds, and every expiry record names the reasons of the reading it was made on. |
| SponsorContact.FinalizedAtMostOnce | src/economic/foundation/postgresFinalizationRepository.ts:215-245 | Over all recover processes, races and crashes the signer's finalize is called at most once per operation. |
| SponsorContact.FinalizeFollowsContact | src/economic/foundation/postgresFinalizationRepository.ts:232-245 | Whatever finalize was called for has its contact committed under its fence and has not expired. |
| SponsorContact.ContradictionForbidsContact | migrations/024_pre_signer_operational_authority.sql:289-291 | Once a rejected or sponsor-signed callback is on record for an attempt, no later call grants contact for its operation. |
| SponsorBudgets.ClaimCharges | src/economic/foundation/postgresFinalizationRepository.ts:148-189 | A new operation is charged to the active current version of its own sponsor's family, within the room left. |
| SponsorBudgets.ClaimFitsFamily | migrations/024_pre_signer_operational_authority.sql:421-429 | After a new claim the family total is within the current limits, so the capacity trigger passes on insert. |
| SponsorBudgets.UpdateKeepsCharges | migrations/024_pre_signer_operational_authority.sql:154-193 | Every update the signer, expiry and accounting calls make keeps or lowers the charge of every set of versions in each component. |
| SponsorBudgets.TotalMoves | src/economic/foundation/postgresFinalizationRepository.ts:178-185 | An update moves the charge of every set of versions that holds the row's by exactly the difference between the old and the new charge. |
| SponsorBudgets.SettlementCharges | migrations/024_pre_signer_operational_authority.sql:362-377 | Settling replaces the requested maximum by exactly the observed amounts, which never exceed it. |
| SponsorHistory.SettlementSurvivesInterleaving | src/economic/foundation/postgresFinalizationRepository.ts:332-347 | Whatever calls run between the two transactions of settling, the second answers iff the operation is settled by the same accounting already, or is neither settled nor frozen; and then it charges exactly what was observed. |
| SponsorRuns.CreatedClaimFitsFamily | src/economic/foundation/postgresFinalizationRepository.ts:178-189 | In every reachable state a claim that created an operation leaves the charge over all versions within base, priority, rent and outstanding limits. |
| SponsorRuns.VersionsStayWithinLimits | migrations/024_pre_signer_operational_authority.sql:412-420 | No version is ever charged beyond its own limits, in any reachable state. |
| SponsorRuns.AdministrationKeepsFamilyCharge | src/economic/foundation/trustedRegistry.ts:77-89 | Installing, switching and revising budgets never changes what a family is charged. |
| SponsorRuns.FitsThroughoutIff | src/economic/foundation/trustedRegistry.ts:77-89 | A family is within its current limits throughout a run iff every revision that took effect covered the charge at that moment. |
| SponsorShrunkBudget.ShrunkLimitsAreExceeded | src/economic/foundation/trustedRegistry.ts:77-89 | A concrete run: limits of 10, a registered attempt, a claim of 8 that is created within them, and a revision to 5 that takes effect and leaves the family beyond its limits. |
| SponsorRuns.FamiliesStayWithinLimits | src/economic/foundation/trustedRegistry.ts:77-89 | If no revision lowers a limit, every family is within its current limits in every reachable state. |
| UsdcAmounts.RawRoundTrip | src/payments/paymentIntentValidation.ts:119-129 | Every non-negative raw amount is printed as an accepted amount string that converts back to it. |
| UsdcAmounts.DisplayRoundTrip | src/payments/paymentIntentValidation.ts:119-129 | An accepted amount string converts to raw and back with only trailing fraction zeros removed. |
| UsdcAmounts.SameAmountSameNormalForm | src/payments/paymentIntentValidation.ts:119-129 | Two accepted strings mean the same raw amount iff they agree up to trailing fraction zeros. |
| UsdcAmounts.PrintersAgree | src/devnet/browserDevnetExecution.ts:67 | The browser display, the receipt printer at six decimals and rawUsdcToDisplay agree on every amount. |
| UsdcAmounts.FormatAmountIsExact | src/executions/executionReceiptTypes.ts:58-63 | The receipt printer splits quotient and remainder at any number of decimals without loss, up to trailing zeros. |
| UsdcAmounts.RawIffWritten | src/payments/paymentIntentValidation.ts:119-124 | A text is an amount iff it is a whole number without leading zeros, alone or with a point and one to six digits, and its raw value is the whole part's millions plus each digit by its place. |
| UsdcAmounts.ParseAmountAccepts | src/payments/paymentIntentValidation.ts:71-79 | A request amount is accepted iff it is such a text of 1 to 2^63 - 1 units, and is returned unchanged. |
| PolicyEncoding.ItemIsPrefixFree | src/devnet/devnetPreparationPolicy.ts:5 | A length-prefixed field is delimited by its own prefix, whatever its bytes and what follows. |
| PolicyEncoding.CanonicalEncodingInjective | src/devnet/devnetPreparationPolicy.ts:5 | Two policies have the same canonical bytes iff all fifteen fields are equal. |
| PolicyEncoding.PolicyReadsBack | src/devnet/devnetPreparationPolicy.ts:5 | Reading the canonical bytes as length-prefixed fields between bars gives the fifteen fields back, each in its place. |
| PollingLoop.SingleActivityIffNoOverlap | src/executions/adaptiveWorkerLoop.ts:20-62 | Over every run there is at most one pending timer or running iteration, never both, iff start never runs beside an iteration a stop cut off. |
| PollingLoop.StoppedArmsNothing | src/executions/adaptiveWorkerLoop.ts:27-45 | While stopped no event arms a timer; without an overlap none is armed. |
| PollingLoop.DrainedMeansQuiet | src/executions/adaptiveWorkerLoop.ts:33-36 | After a stop, once the tracked iteration is over nothing runs and nothing is armed. |
| PollingLoop.OverlapLeaksATimer | src/executions/adaptiveWorkerLoop.ts:20-31 | A concrete run in which an overlapping start leaves a timer that a stop does not cancel. |
| PollingLoop.DelayIndexIsStreak | src/executions/adaptiveWorkerLoop.ts:55-61 | The delay index is the number of iterations without work in a row, capped at the last delay. |
| PollingLoop.ArmedDelayFollowsStreak | src/executions/adaptiveWorkerLoop.ts:56-61 | Every timer an event arms waits the delay of the current streak. |
| PollingLoop.AdaptiveWorkerLoop.Start | src/executions/adaptiveWorkerLoop.ts:20-25 | Starting a stopped loop resets the back-off and arms the first delay; otherwise nothing happens. |
| PollingLoop.AdaptiveWorkerLoop.Stop | src/executions/adaptiveWorkerLoop.ts:27-31 | Stopping cancels the timer the loop knows of. |
| PollingLoop.AdaptiveWorkerLoop.Finish | src/executions/adaptiveWorkerLoop.ts:47-62 | The end of an iteration backs off or resets and arms the next timer unless stopped. |
| KeySnapshots.SnapshotRegistry.Publish | src/economic/readiness/auth0Snapshots.ts:77-78 | The end of an install publishes iff nothing was published since it began. |
| KeySnapshots.SnapshotRegistry.ReplaceKeys | src/economic/provider/providerTokenVerifier.ts:99-108 | The end of a replacement publishes iff its revision is still above the current one. |
| KeySnapshots.SnapshotsFormAChain | src/economic/readiness/auth0Snapshots.ts:62-80 | Over every interleaving of installs split at their awaits, published revisions strictly increase and each names its predecessor. |
| KeySnapshots.PublicationOutdatesRivals | src/economic/readiness/auth0Snapshots.ts:77-78 | Of installs that began on one snapshot, once one publishes the others cannot. |
| KeySnapshots.KeyRevisionsOnlyIncrease | src/economic/provider/providerTokenVerifier.ts:99-108 | Overlapping key replacements never publish a lower or an equal revision. |

## Left out

- Identifiers (UUIDs, subjects, table keys) are natural numbers: only their equality matters to this code.
- Clocks, random ids, leases, chain heights, the rows an operation's authority rests on, and what signer, observer
  and RPC answer are parameters of the steps, arbitrary at every step.
- Cryptography is a set of functions; the cipher law is assumed only in `DevnetHonestRuns`, collision-free tuple
  digests only where a lemma names them.
- zephyon-protocol is not part of this model beyond its fence functions; the Devnet transport is taken to call the
  provider at most once per call, and the message profile and signature inspection may answer anything.
- JsonReader.ParseEconomicJson: `TextDecoder` is an arbitrary function from bytes to code units, and the value of a
  number is its lexeme, because UTF-8 decoding and rounding to a double are the runtime's, not this reader's.
- SponsorTriggers.WritesPassGuards: the capacity trigger's joins with consent, runtime and registry evidence are
  not repeated, because those rows enter through the `eligible` verdict of the claim.
- SponsorTriggers.InsertPassesTriggers: leaves out the same joins, for the same reason.
- SponsorRepository.PostgresFinalizationRepository.SettleExposure: one call of it runs its reads and transactions
  without others in between; `SponsorHistory.SettlementSurvivesInterleaving` is about any calls in between.
- KeySnapshots.SnapshotRegistry.Publish: the part of `install` before its last await is the events of
  `KeySnapshots.Step`, because other calls run between the awaits.
- KeySnapshots.SnapshotRegistry.ReplaceKeys: the part before its await is an event of `KeySnapshots.Step` likewise.
- In the Devnet processes the three wire answers of the transport are kept, but not its own internal checks, and
  the recovery fence is stored nowhere, as in the in-memory repository.
- Object freezing and cloning are not modelled: values cannot be aliased here.
- The repository's promise queue is taken as what it provides, one call at a time.
- `BrowserDevnetExecutionService.execute`, `recoverPreparation` and `project` only compose the modelled calls and map
  states to labels; of that class `projectTerminal`'s search and `display` are modelled.
- `AdaptiveWorkerLoop`'s callback for observing delays and its timer's `unref` change no state.
- Audit events, and the writing of session, consent, runtime and registry rows. Registration and claim see the
  service's verdict on them as `eligible`, contact and expiry see the rows themselves as their `Authority`.
- The report table of the observer in migration 025: what its ingestion does to operations, evidence of an effect or
  an incident, is modelled, the reports themselves are not.
- Malformed UUIDs, refused before any table is read.
- `recover` is modelled as processes only, not as a class method, because its calls interleave at every await.
- Locks: each transaction is one atomic step, which the lock order of the source is there to provide.
- The next budget version is the current one plus one; it is the family's maximum plus one because the current
  version is always the newest (`SponsorBudgets.VersionOk`).
- `formatAmount` with no decimals, where `slice(-0)` keeps the whole string.
- HTTP routes, rate limits, environment parsing, scripts, telemetry and operator flows.

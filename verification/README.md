# Meldbase qualification protocols in Dafny

Meldbase qualifies its rollback protection with tools that run protocols, collect signed evidence
and refuse evidence that does not add up. This project models those tools in Dafny and proves what
they are for. Check everything with `dafny verify dfyconfig.toml`.

| area | modules |
|---|---|
| linearizability checker for anchor histories | `AnchorHistory`, `HistorySearch`, `LinearizabilityCheck`, `SearchCount` |
| controller waves and the order they impose | `ControllerWaves`, `ControllerProgress`, `RealTimeOrder`, `WaveHistory`, `FinalLoad` |
| history agent: requests, signed results, journal, crashes | `HistoryWire`, `AgentProtocol`, `AgentSafety`, `AgentRuns`, `AgentTheorems`, `AgentReservations`, `AgentWaiters`, `AgentAgreement`, `AgentOutcomes`, `AgentHandler`, `AgentRestart`, `AgentEvidence`, `EvidenceBinding` |
| quorum store and what its loads keep | `QuorumStore`, `QuorumRuns`, `LoadInversion`, `StoreHistory` |
| history receipts, quorum evidence and their verification | `QuorumEvidence`, `HistoryReceipt`, `HistoryVerification` |
| five-phase receipts, their chain and the probe that makes them | `PhaseReceipt`, `PhaseRelation`, `ReceiptChain`, `PhaseProbe` |
| Redfish power cycle | `PowerCycle` |
| admin sampler | `SampleHistory`, `SamplerRuns` |
| disk fill, corruption campaign, overlap data, capture writer | `VolumeFill`, `PageSamples`, `Corruption`, `OverlapData`, `CaptureWriter` |
| shared | `Anchors`, `Options`, `Permutations` |

Concurrency is a step relation over atomic actions, and a theorem about runs holds for every
interleaving, failure and restart that the relation allows. Code that updates objects is a class or
a method with loops, proved against a specification that does not mention its body. Hashes and
signatures are free constructors, so equal digests mean equal contents and a signature verifies only
for its key and its contents. Clocks, network answers, disk outcomes and the consumers' timing are
parameters.

## Findings

- The final value of an accepted history receipt covers the initial value, every anchor that a majority
  of members holds, and every successful operation that returned before the final load was invoked
  (`HistoryReceipt.ReceiptCoversHistory`, `HistoryReceipt.ReceiptKeepsQuorumAnchors`). The validator does
  not check that the final load came after the others: a later acknowledged advance can be lost, and it
  is certain to be kept exactly if it returned before that load was invoked
  (`HistoryReceipt.KeptIffFinalLoadFollows`). The signer's own receipts always meet this condition
  (`HistoryReceipt.SignHistory`).
- Answers of the history agent to one operation agree across crashes, power losses and restarts, unless
  a power loss takes away the result of an operation already answered
  (`AgentAgreement.ResponsesAgree`). The condition is exact: as long as the journal loads and the
  operation would be taken on again within its lease, an answer stands until the next power loss if
  and only if its result is on disk (`AgentAgreement.AnswerStandsIffOnDisk`). Such a loss needs a file
  whose write had reported an error and which a restart has read back;
  `AgentTheorems.LostReadBackDiverges` builds the run for every acceptable request.
- In every run an execution follows a durable reservation of exactly its request
  (`AgentReservations.ExecutionFollowsReservation`). All reservations belong to one run ID unless a
  power loss leaves the directory empty after a reservation (`AgentReservations.OneRun`). That can
  happen, since the identity and the request may both be files whose writes had reported errors
  (`AgentReservations.TwoRuns`), and the condition is exact
  (`AgentReservations.RunStandsIffNotEmpty`). Likewise there is one request per operation ID unless a
  power loss takes away the file of a reserved request (`AgentReservations.OneRequestPerOperation`,
  `AgentReservations.RequestStandsIffFiled`).
- After any run a configuration accepts the journal again exactly if the journal's identity admits it,
  no file is torn, none is missing that another needs, every result on disk was signed with a forward
  clock within its lease and with a positive generation, and there are at most 23 request files
  (`AgentRestart.RestartsExactly`). Requests whose write failed are not counted as reservations but
  their files are counted at the next start, so failed writes alone can block every restart in every
  configuration until a power loss drops one of them (`AgentRestart.FailedWritesBlockRestart`,
  `AgentRestart.PowerLossMayUnblock`).
- Loads of the quorum store keep every acknowledged anchor, but loads alone are not monotone: a value
  seen at a minority may be missing from the next load. `LoadInversion.CertainIffLoadableKeep` says
  exactly which anchors a load is certain to keep, and `LoadInversion.LoadsMayGoBack` gives the run. A
  completed schedule of the controller, with one operation in each of four waves, records that run as a
  valid history that is not linearizable, so the store can fail its own qualification
  (`StoreHistory.StoreMayFailQualification`).
- The checks on a phase receipt do not compare the relation that it states with the database and anchor
  that it records. Every accepted receipt with an anchor has an accepted variant that misstates its
  relation, except for a rejected database of generation zero (`PhaseRelation.MayMisstateIff`). The
  member evidence still certifies that the database is not behind a quorum of members, except in the
  rollback phase, where it certifies no order (`PhaseRelation.MembersCertifyNotBehind`,
  `PhaseRelation.MembersDoNotCertifyRollback`).
- Page samples cover a file up to its last page exactly if no 64-bit product overflows, which holds
  for every file with a signed 64-bit size (`PageSamples.SpreadIffFits`, `PageSamples.FilesFit`).
- A probe publishes a receipt that is accepted by itself but does not compare its clock, its external
  evidence or its database sequence with the receipts before it. Successive probes form an accepted
  chain exactly if these are in order (`PhaseProbe.ProbedChainIsAcceptedIff`). In the recovered phase
  the recorded database is read after the recorded relation was computed, so an honest receipt can
  misstate it (`PhaseProbe.PublishedStatesItsRelation`).
- The last check of a complete receipt chain, for an explicit rollback rejection, can never fail: the
  phase checks imply it (`ReceiptChain.CompleteChainRejectsRollback`).
- A verified receipt and its record hold exactly the signed results of the listed agents, one operation
  each, and the final value covers every signed success that returned before the final load
  (`HistoryVerification.OperationIsSigned`, `HistoryVerification.SignedResultIsRecorded`,
  `HistoryVerification.SignedSuccessIsCovered`). That operations and results pair up one to one needs
  both checks: the evidence alone allows repeated operation IDs (`AgentEvidence.PairedIffDistinct`), and
  only the checker of histories refuses them.
- The wire accepts anchors that the checker of histories does not: those with the zero identity and
  those whose generation is at most their commit sequence (`HistoryReceipt.WireAcceptsMore`). One of
  them in a history, also as the value of a failed operation, gets the whole history rejected
  (`HistoryReceipt.OneSuchValueRejects`).

## Model

| member | source | states |
|---|---|---|
| `AnchorHistory.ValidateHistory` | internal/qualification/anchor_history.go:179-228 | accepts exactly the histories of 1 to 24 well-formed operations with distinct IDs, distinct event ordinals and a valid initial value |
| `AnchorHistory.ValidateOperations` | internal/qualification/anchor_history.go:186-227 | the loop with its two seen sets finds every repeated ID and every shared ordinal, and nothing else |
| `AnchorHistory.Transitions` | internal/qualification/anchor_history.go:136-162 | lists exactly the register values that explain the observed result, and flags exactly the ambiguous writes that take effect |
| `HistorySearch.PredecessorTable` | internal/qualification/anchor_history.go:79-86 | entry i holds exactly the operations that returned before i was invoked |
| `HistorySearch.Search.Explore` | internal/qualification/anchor_history.go:95-120 | the memoised recursion over mutable tables computes the search function: same steps, same answer, same dead states, same number of explored states |
| `HistorySearch.ExploringAnswers` | internal/qualification/anchor_history.go:95-120 | the search finds a completion from a partial order if and only if there is one, reports it, and every state remembered as dead has none |
| `HistorySearch.Search.TryOperation` | internal/qualification/anchor_history.go:104-117 | the inner loop tries the transitions of one operation in order and stops at the first that leads to the end |
| `HistorySearch.TryingOneAnswers` | internal/qualification/anchor_history.go:104-117 | trying one operation either yields a completion or shows that no completion starts with it |
| `LinearizabilityCheck.CompletionIsLinearization` | internal/qualification/anchor_history.go:95-120 | a completed search path is a total order that respects real time and explains every result in turn |
| `LinearizabilityCheck.LinearizationIsCompletion` | internal/qualification/anchor_history.go:95-120 | every linearization is a path the search could take, so pruning loses none |
| `LinearizabilityCheck.CheckDecides` | internal/qualification/anchor_history.go:74-127 | the result that a history determines says linearizable exactly if a linearization exists, and then reports one step by step |
| `LinearizabilityCheck.CheckAnchorHistory` | internal/qualification/anchor_history.go:74-127 | sound and complete: rejects exactly invalid histories, answers linearizable exactly if a linearization exists, and returns the one result that the history determines, so that it can be recomputed; what its count means is `SearchCount.ExploredStates` |
| `SearchCount.ExploredStates` | internal/qualification/anchor_history.go:95-127 | the number of explored states is one for the start and one for each placement that the search follows, none twice and each from a state reached before; without a linearization these are all placements that can be reached, with one the last completes the history, so there are at least as many as operations |
| `RealTimeOrder.RealTimeIffWavesAscend` | cmd/meld/anchor_history_agent.go:828-878 | for operations separated into waves an order respects real time exactly if waves never descend |
| `RealTimeOrder.RealTimeIffWaveConcatenation` | cmd/meld/anchor_history_agent.go:828-878 | which holds exactly if the order is a concatenation of permutations of the waves |
| `ControllerWaves.EveryScheduleKeeps` | cmd/meld/anchor_history_agent.go:825-877 | every interleaving of the goroutines keeps log, barrier, channel and record consistent |
| `ControllerWaves.CompletedRun` | cmd/meld/anchor_history_agent.go:825-877 | in every completed run each planned operation is recorded once, invocations of a wave precede its returns, waves do not overlap, and the ordinals are exactly 1 to 2N |
| `ControllerProgress.CompletedWithoutFailure` | cmd/meld/anchor_history_agent.go:843-877 | in a completed run no nonce failed and no agent call failed |
| `ControllerProgress.AbortedByFailure` | cmd/meld/anchor_history_agent.go:860-872 | the run is aborted exactly by receiving a failed result, after which it stays aborted, and only if something failed |
| `ControllerProgress.EndsFinishedIffNothingFailed` | cmd/meld/anchor_history_agent.go:825-877 | a schedule that can go no further has finished exactly if nothing in it failed, and is aborted otherwise |
| `ControllerProgress.NeverStuck` | cmd/meld/anchor_history_agent.go:825-877 | in every reachable state that is neither finished nor aborted some action is possible, and one by which nothing fails |
| `ControllerProgress.EveryScheduleEnds` | cmd/meld/anchor_history_agent.go:825-877 | no schedule takes more than seven actions for each operation and three for each wave |
| `ControllerProgress.CanComplete` | cmd/meld/anchor_history_agent.go:825-877 | from every reachable state in which nothing has failed in the wave, some schedule completes the plan |
| `ControllerProgress.EveryPlanCompletes` | cmd/meld/anchor_history_agent.go:825-877 | every plan has a completed schedule, so the statements about completed runs are not empty |
| `WaveHistory.CompletedRunOrders` | cmd/meld/anchor_history_agent.go:828-878 | for every completed run: real-time orders are exactly the concatenations of wave permutations |
| `WaveHistory.FinalLoadClosesRun` | cmd/meld/anchor_history_qualification.go:188-205 | the appended load is last in every real-time order and the rest is a concatenation of wave permutations |
| `FinalLoad.AppendFinalLoad` | cmd/meld/anchor_history_qualification.go:188-205 | appends a load directly after the largest ordinal, and refuses exactly if its two ordinals would overflow 64 bits |
| `FinalLoad.LatestIsLast` | cmd/meld/anchor_history_qualification.go:201-205 | an operation invoked after all others returned comes last in every real-time order |
| `FinalLoad.RegisterNeverLoses` | internal/qualification/anchor_history.go:165-176 | along any explained run the register only moves forward |
| `FinalLoad.LoadCoversEarlier` | internal/qualification/anchor_history.go:165-176 | in a linearizable history a successful load covers the initial value and every successful operation that returned before it was invoked |
| `FinalLoad.FinalValueCoversHistory` | cmd/meld/anchor_history_qualification.go:201-212 | in a linearizable history the final load covers the initial value, every acknowledged advance and every value any load returned |
| `HistoryWire.WireRoundTrip` | cmd/meld/anchor_history_qualification.go:359-384 | an accepted wire value is the wire form of the anchor it converts to |
| `HistoryWire.AnchorRoundTrip` | cmd/meld/anchor_history_qualification.go:359-384 | exactly the anchors with positive generation, and plain absence, survive the wire |
| `HistoryWire.OwnReportReloads` | cmd/meld/anchor_history_agent.go:658-713 | exactly when an agent's own signed result passes the evidence checks again: among the rest not started more than thirty seconds before the request was issued nor finished more than one second after its lease |
| `AgentSafety.RunLocks` | cmd/meld/anchor_history_agent.go:349-480 | invariant of every reachable state: ownership of in-flight entries, disjoint maps, closed channels |
| `AgentSafety.RunDurable` | cmd/meld/anchor_history_agent.go:349-599 | invariant of every clean reachable state: memory, threads, reservations and answers are all backed by files that are never overwritten |
| `AgentAgreement.RunGrounded` | cmd/meld/anchor_history_agent.go:349-599 | invariant of every reachable state: digests in memory are reserved requests, and results in memory, persisted results and answers are on disk when they are given |
| `AgentAgreement.ResponsesAgree` | cmd/meld/anchor_history_agent.go:349-480 | all successful responses for one operation ID are the identical fragment for the identical reserved request, over concurrent calls, write failures, crashes, power losses and restarts, unless a power loss takes an answered result away |
| `AgentOutcomes.AnswersReportExecutions` | cmd/meld/anchor_history_agent.go:419-480 | every answer of every run goes back to an executor call for exactly its request: it says succeeded exactly if that call succeeded, and its value is the target of an advance, nothing for a failed load and the loaded anchor for a successful one |
| `AgentOutcomes.ResultsReportExecutions` | cmd/meld/anchor_history_agent.go:419-480 | so does every complete result on disk, whatever crashes and restarts came between |
| `AgentOutcomes.RunBound` | cmd/meld/anchor_history_agent.go:606-656 | in every reachable state every request at work is for this agent, with a target exactly for an advance and a lease of at most two minutes |
| `AgentOutcomes.CallsAreTimely` | cmd/meld/anchor_history_agent.go:606-616 | a call is taken on only from thirty seconds before its request was issued until its lease ends |
| `AgentOutcomes.WokenIsAnswered` | cmd/meld/anchor_history_agent.go:382-392 | a woken caller is answered with the result in memory, which is one for its own request, and refused exactly if there is none |
| `AgentOutcomes.WokenCanGoOn` | cmd/meld/anchor_history_agent.go:382-392 | a woken caller can always go on, and is answered if there is a result |
| `AgentAgreement.CleanKeepsAnswers` | cmd/meld/anchor_history_agent.go:523-599 | no power loss does so in a run that loses no file a restart has read back |
| `AgentAgreement.LostDiverges` | cmd/meld/anchor_history_agent.go:354-480 | from any reachable state whose journal loads without an answered result and has room for the request, some continuation answers it differently, at any time within its lease |
| `AgentAgreement.AnswerStandsIffOnDisk` | cmd/meld/anchor_history_agent.go:350-599 | if some configuration loads the journal, the handler would take the request on and its lease is open, the answer is repeated by every continuation up to the next power loss exactly if its result is on disk |
| `AgentTheorems.ProcessCrashesAreClean` | cmd/meld/anchor_history_agent.go:523-599 | without power losses no file that a restart has read back is lost |
| `AgentTheorems.HistoryOnlyGrows` | cmd/meld/anchor_history_agent.go:349-480 | no step forgets a response, execution, reservation or close, so claims about the last state cover the whole run |
| `AgentReservations.RunReady` | cmd/meld/anchor_history_agent.go:354-599 | invariant of every reachable state, whatever power losses took away: a running handler remembers only reservations that are on disk for good, and only reserved requests were executed |
| `AgentReservations.OneRun` | cmd/meld/anchor_history_agent.go:354-418 | over all restarts every reservation belongs to one run, unless a power loss leaves the directory empty after a reservation; only reserved requests are executed |
| `AgentReservations.RunStandsIffNotEmpty` | cmd/meld/anchor_history_agent.go:354-418 | after a reservation no continuation up to the next power loss reserves in another run exactly if the directory is not empty |
| `AgentReservations.TwoRuns` | cmd/meld/anchor_history_agent.go:483-510 | for any two acceptable requests, also of different runs, some run of the agent reserves both |
| `AgentReservations.OneRequestPerOperation` | cmd/meld/anchor_history_agent.go:354-418 | each operation ID has one reserved request and it is on disk, unless a power loss takes away the file of a reserved request |
| `AgentReservations.RequestStandsIffFiled` | cmd/meld/anchor_history_agent.go:354-418 | if some configuration loads the journal and there is room for another request under the ID, no continuation up to the next power loss reserves another one exactly if the file is on disk |
| `AgentReservations.CleanKeepsRequests` | cmd/meld/anchor_history_agent.go:523-599 | both conditions hold in every run that loses no file a restart has read back |
| `AgentTheorems.ExecutionIsExclusive` | cmd/meld/anchor_history_agent.go:354-480 | at most one owner per operation, results and in-flight entries disjoint within at most 23 reservations, each channel closed at most once and by its creator, and an owner finds its own channel |
| `AgentWaiters.WaitersAreServed` | cmd/meld/anchor_history_agent.go:375-395 | in every reachable state the channel that a caller waits for is closed, or its creator is at work on the operation |
| `AgentWaiters.OwnersClose` | cmd/meld/anchor_history_agent.go:419-480 | while the process lives, a thread that has reserved an operation is at work or has closed its own channel, once |
| `AgentReservations.ExecutionFollowsReservation` | cmd/meld/anchor_history_agent.go:405-440 | in every run every executor call follows a durable reservation of exactly that request |
| `AgentTheorems.LostReadBackDiverges` | cmd/meld/anchor_history_agent.go:523-599 | for every acceptable request and any times of its calls within its lease there is a run that answers it with two different results once a power loss takes away a read-back file |
| `AgentHandler.WriteExclusive` | cmd/meld/destructive_enospc.go:493-512 | an exclusive durable write never changes an existing file, and its outcomes are those of the protocol |
| `AgentHandler.EveryWriteIsAnAttempt` | cmd/meld/destructive_enospc.go:493-512 | conversely every outcome of the protocol is the outcome of some attempt |
| `AgentHandler.Scan` | cmd/meld/anchor_history_agent.go:544-594 | one recovery pass succeeds exactly if every file is complete and accepted, and then collects every content under its own name |
| `AgentHandler.ReadJournal` | cmd/meld/anchor_history_agent.go:523-599 | recovery succeeds exactly on acceptable journals without unexpected entries and restores what the protocol says they stand for |
| `AgentHandler.LoadsOnlyLoadable` | cmd/meld/anchor_history_agent.go:523-599 | the restored memory is determined by the journal |
| `AgentRestart.RunWritten` | cmd/meld/anchor_history_agent.go:349-599 | invariant of every run of validly configured agents: under a complete identity the journal holds only requests acceptable to it and reports of agents that it admits about them |
| `AgentRestart.RestartsExactly` | cmd/meld/anchor_history_agent.go:523-599 | exactly which configurations accept the journal of any such run: those its identity admits, if it is whole and untorn, with results that reload and at most 23 requests |
| `AgentRestart.RestartsWithoutPowerLoss` | cmd/meld/anchor_history_agent.go:523-599 | without power losses nothing is ever missing from the journal, so the other conditions decide |
| `AgentRestart.FailedWritesBlockRestart` | cmd/meld/anchor_history_agent.go:396-418 | for every acceptable request a run of failed writes, without crash or power loss, ends in a whole and untorn journal that no configuration accepts in any continuation up to the next power loss |
| `AgentRestart.TooManyRequestsBlock` | cmd/meld/anchor_history_agent.go:595-597 | more request files than reservations block every restart until a power loss |
| `AgentRestart.PowerLossMayUnblock` | cmd/meld/anchor_history_agent.go:595-597 | a power loss that drops one of those files makes the journal acceptable again |
| `AgentHandler.Handler.Enter` | cmd/meld/anchor_history_agent.go:354-418 | the first critical section refines the protocol's section for every outcome of its two writes |
| `AgentHandler.Handler.BindAndReserve` | cmd/meld/anchor_history_agent.go:399-418 | binds the run before the first reservation and reserves in memory only what is on disk |
| `AgentHandler.Handler.PersistResult` | cmd/meld/anchor_history_agent.go:511-520 | writes the result under its own operation ID and touches no other file |
| `AgentHandler.Handler.Leave` | cmd/meld/anchor_history_agent.go:461-480 | publishes the result if there is one, closes the stored channel and forgets it |
| `AgentHandler.Handler.LoadDurableState` | cmd/meld/anchor_history_agent.go:523-599 | installs the restored memory, exactly on acceptable journals |
| `AgentEvidence.ValidateAgentEvidence` | cmd/meld/anchor_history_agent.go:716-756 | accepts exactly the records whose fragments are signed by listed agents, have distinct IDs, use every agent and match every operation |
| `EvidenceBinding.RecordIsSigned` | cmd/meld/anchor_history_agent.go:658-756 | in an accepted record every fragment is signed over exactly its own body under the key of the one listed agent that it names, for this run and configuration, with consistent contents |
| `EvidenceBinding.RecordBodyIsPinned` | cmd/meld/anchor_history_agent.go:679-681 | replacing the body of any fragment without signing again gets the record refused |
| `EvidenceBinding.RecordSignatureIsPinned` | cmd/meld/anchor_history_agent.go:679-681 | so does replacing a signature |
| `EvidenceBinding.RecordOperationIsPinned` | cmd/meld/anchor_history_agent.go:716-756 | so does changing the kind, outcome or value of an operation |
| `EvidenceBinding.JournalIsSigned` | cmd/meld/anchor_history_agent.go:523-599 | every result of a journal that loads is signed over its own body under the agent's own key, for the bound run, and answers the request on file |
| `EvidenceBinding.JournalResultIsPinned` | cmd/meld/anchor_history_agent.go:577-594 | replacing its body or its signature gets the journal refused |
| `EvidenceBinding.IdentityDecides` | cmd/meld/anchor_history_agent.go:523-543 | a journal that loads under one configuration loads under another exactly if agent, configuration, revisions, build and key are the same |
| `AgentEvidence.CollectFragments` | cmd/meld/anchor_history_agent.go:730-746 | the loop with its two maps finds every duplicate and collects exactly the fragments and their agents |
| `AgentEvidence.AllUsedIffSameSize` | cmd/meld/anchor_history_agent.go:747-749 | counting used agents decides whether every listed agent signed an operation |
| `AgentEvidence.PairedIffDistinct` | cmd/meld/anchor_history_agent.go:716-756 | in an accepted record operations and fragments are in bijection with equal kind, outcome and value exactly if operation IDs are distinct |
| `AgentEvidence.EveryFragmentIsUsed` | cmd/meld/anchor_history_agent.go:716-756 | then every fragment is the evidence of exactly one operation |
| `QuorumEvidence.ValidateMembers` | cmd/meld/anchor_history_qualification.go:427-444 | accepts exactly distinct members that are available with an anchor or missing without a claim |
| `QuorumEvidence.FinalValueSupported` | cmd/meld/anchor_history_qualification.go:451-476 | decides exactly whether the value is held by a member and ahead of a quorum, or absent at a quorum |
| `QuorumEvidence.QuorumAnchorIsKept` | cmd/meld/anchor_history_qualification.go:404-476 | for any number of members an anchor held by a majority is never lost from a supported final value |
| `QuorumEvidence.KeptIffNoneLeadsWithout` | cmd/meld/anchor_history_qualification.go:451-476 | for any members, ordered or crossed, and any quorum: every supported final value keeps an anchor exactly if neither a quorum is missing nor a member leads a quorum without the anchor |
| `QuorumEvidence.KeptIffMajorityHolds` | cmd/meld/anchor_history_qualification.go:451-476 | corollary: for an odd number of members, those without the anchor ordered, exactly if a majority holds it |
| `HistoryReceipt.HistoryFromWire` | cmd/meld/anchor_history_qualification.go:339-356 | converts a record exactly if every value in it converts, operation by operation |
| `HistoryReceipt.WireAcceptsMore` | cmd/meld/anchor_history_qualification.go:359-384 | exactly which values the wire accepts and the checker refuses |
| `HistoryReceipt.OneSuchValueRejects` | internal/qualification/anchor_history.go:179-228 | one such value anywhere gets the whole history rejected |
| `HistoryReceipt.ValidateReceipt` | cmd/meld/anchor_history_qualification.go:404-448 | accepts exactly complete receipts that end with the final load, whose check is the recomputed one, and whose final value its members support |
| `HistoryReceipt.ReceiptCoversHistory` | cmd/meld/anchor_history_qualification.go:404-448 | the final value of every accepted receipt covers the initial value and every successful operation that returned before the final load was invoked |
| `HistoryReceipt.ReceiptKeepsQuorumAnchors` | cmd/meld/anchor_history_qualification.go:404-448 | and every anchor that a majority of its members holds |
| `HistoryReceipt.ReceiptCheckIsPinned` | cmd/meld/anchor_history_qualification.go:419-426 | the check in an accepted receipt names a linearization of the recorded history and counts the states of the search for it; any other check gets the receipt refused |
| `HistoryReceipt.MajorityBacksReceipt` | cmd/meld/anchor_history_qualification.go:427-476 | behind the final value stands a majority of members under different names, none with anything ahead of it, and a present value is the very anchor of one of them |
| `HistoryReceipt.FinalLoadMayMiss` | cmd/meld/anchor_history_qualification.go:415-418 | for all ordinals with an advance returning after the final load began, some accepted receipt loses that advance |
| `HistoryReceipt.KeptIffFinalLoadFollows` | cmd/meld/anchor_history_qualification.go:415-418 | an operation is kept by every accepted receipt with these ordinals exactly if it returned before the final load was invoked |
| `HistoryReceipt.SignHistory` | cmd/meld/anchor_history_qualification.go:188-232 | publishes the one receipt that closes the controller's history with a load at the next two ordinals exactly if that receipt is valid, and it then covers every successful operation |
| `HistoryVerification.ValidateController` | cmd/meld/anchor_history_qualification.go:313-336 | accepts exactly identified records of 1 to 23 operations with valid signed evidence, none under the reserved ID, that convert to a valid history |
| `HistoryVerification.VerifyFiles` | cmd/meld/anchor_history_qualification.go:278-310 | accepts exactly a valid signed receipt with a valid record that it names by hash and repeats up to the final load |
| `HistoryVerification.OperationIsSigned` | cmd/meld/anchor_history_qualification.go:278-310 | every operation of a verified receipt but the last is what exactly one result says that a listed agent has signed for this run |
| `HistoryVerification.SignedResultIsRecorded` | cmd/meld/anchor_history_qualification.go:278-310 | conversely every signed result of the record is exactly one operation of the receipt, and not the final load |
| `HistoryVerification.SignedSuccessIsCovered` | cmd/meld/anchor_history_qualification.go:278-310 | the final value covers the value of every signed success that returned before the final load was invoked |
| `HistoryVerification.ReceiptBindsOneRecord` | cmd/meld/anchor_history_qualification.go:296-306 | under collision-free hashes and binding signatures, one signature verifies with one receipt and one record file |
| `HistoryVerification.SignedReceiptVerifies` | cmd/meld/anchor_history_qualification.go:188-310 | what the signer publishes for a valid record verifies with that record, and covers every signed success |
| `QuorumStore.SelectLoadQuorum` | integrations/anchorhttp/anchorhttp.go:754-799 | selects a reply that keeps everything of a quorum of replies and dominates every other such reply, confirms absence only by a quorum, and otherwise waits |
| `QuorumStore.Load` | integrations/anchorhttp/anchorhttp.go:403-454 | returns an anchor exactly if some prefix of the arrivals selects one before a refusal, at the first that does: giving up early loses no result; returns a refusal exactly if it came first while a quorum was still possible, and a conflict exactly if all replicas were heard and a quorum of answers selects nothing |
| `QuorumStore.Advance` | integrations/anchorhttp/anchorhttp.go:457-523 | acknowledges exactly if a quorum accepts before a refusal; returns a refusal exactly if it came first while a quorum was still possible, and a conflict exactly if one was among the arrivals that put a quorum out of reach; never sends an anchor without identity |
| `QuorumRuns.RunInv` | integrations/anchorhttp/anchorhttp.go:237-271 | invariant of every run: members only move forward, and what a member accepted or showed is at least what it held when the operation began |
| `QuorumRuns.LoadCoversHeld` | integrations/anchorhttp/PROTOCOL.md:165-166 | a load keeps everything a quorum held when it began, for every arrival order |
| `QuorumRuns.LoadsKeepAcknowledged` | integrations/anchorhttp/PROTOCOL.md:165-166 | in every run a load that begins after an acknowledgement returns a value at least as high |
| `QuorumRuns.AdvancesKeepAcknowledged` | integrations/anchorhttp/anchorhttp.go:457-523 | an acknowledged advance dominates every anchor acknowledged before it began |
| `QuorumRuns.AcknowledgedFormChain` | integrations/anchorhttp/PROTOCOL.md:159-161 | crossed advances are never both acknowledged |
| `LoadInversion.RegistersAreCanonical` | integrations/anchorhttp/anchorhttp.go:237-271 | in every run an empty register is the canonical absence |
| `LoadInversion.CertainIffLoadableKeep` | integrations/anchorhttp/anchorhttp.go:754-799 | for any number of members and any registers, crossed or not: a load that runs alone is certain to keep exactly the anchors that every stored value ahead of a quorum keeps |
| `LoadInversion.CertainIffHeld` | integrations/anchorhttp/anchorhttp.go:754-799 | on ordered registers of an odd number of members these are exactly the anchors held by a quorum |
| `LoadInversion.CrossedRegistersLoadNothing` | integrations/anchorhttp/anchorhttp.go:754-799 | on three crossed registers no load succeeds, so none misses an anchor that only one member holds |
| `LoadInversion.LoadsMayGoBack` | integrations/anchorhttp/anchorhttp.go:403-454 | for any two ordered anchors there is a run that acknowledges the lower one and in which a later load returns it after an earlier load returned the higher one |
| `StoreHistory.BackwardLoadsRefute` | internal/qualification/anchor_history.go:74-127 | a history in which a later load does not keep what an earlier load returned is not linearizable |
| `StoreHistory.StoreMayFailQualification` | integrations/anchorhttp/anchorhttp.go:403-454 | for any two different ordered anchors, a run of the store and a completed schedule of the controller: what the controller records of that run is valid, separated into its waves and not linearizable |
| `PhaseReceipt.RelationMeans` | cmd/meld/anchor_qualification.go:438-455 | the five relations are exactly the order between anchor and database, and the probe goes on exactly for one identity |
| `PhaseReceipt.CountMembers` | cmd/meld/anchor_qualification.go:514-549 | accepts exactly consistent members and counts the available and the unavailable |
| `PhaseReceipt.ValidateContents` | cmd/meld/anchor_qualification.go:497-556 | accepts exactly complete receipts whose counts are those of their members and fit their phase |
| `PhaseReceipt.VerifyReceipt` | cmd/meld/anchor_qualification.go:592-610 | accepts exactly valid receipts signed by the trusted key |
| `PhaseReceipt.ReceiptIsPinned` | cmd/meld/anchor_qualification.go:592-610 | an accepted receipt is signed over exactly its contents by the trusted key, and changing either gets it refused |
| `PhaseReceipt.PhaseCertifiesMembers` | cmd/meld/anchor_qualification.go:458-484 | what each phase certifies about its members: all up with this database, an exact majority up and the rest down, or at most half up |
| `PhaseRelation.AnchorIsUnchecked` | cmd/meld/anchor_qualification.go:497-556 | an accepted receipt stays accepted with any other valid anchor coordinates |
| `PhaseRelation.MayMisstateIff` | cmd/meld/anchor_qualification.go:497-556 | it has an accepted variant that misstates its own relation exactly if it is not a rejected database of generation zero |
| `PhaseRelation.MisstatedIsAccepted` | cmd/meld/anchor_qualification.go:592-610 | a concrete signed receipt that states equal and records an anchor ahead of its database is accepted under any key |
| `PhaseRelation.MembersCertifyNotBehind` | cmd/meld/anchor_qualification.go:514-549 | healthy, degraded and recovered receipts still certify a quorum of available members, none of which the database is behind |
| `PhaseRelation.MembersDoNotCertifyRollback` | cmd/meld/anchor_qualification.go:514-549 | a rollback receipt stays accepted with every member far behind its database |
| `ReceiptChain.VerifyChain` | cmd/meld/anchor_qualification.go:357-410 | accepts exactly the chains whose every link holds, and returns their contents and file digests, each receipt naming the digest before its own |
| `ReceiptChain.ChainIsConsistent` | cmd/meld/anchor_qualification.go:385-400 | between any two receipts: constant identity, build and members, disjoint ordered times, distinct evidence, sequences that never drop before the rollback and drop strictly there |
| `ReceiptChain.LinkedIsThreaded` | cmd/meld/anchor_qualification.go:380-388 | the receipts are an exact prefix of the five phases, each naming the file before it |
| `ReceiptChain.ConsistentIsLinked` | cmd/meld/anchor_qualification.go:380-400 | conversely these two statements are all that the chain checks ask for |
| `ReceiptChain.CompleteChainRejectsRollback` | cmd/meld/anchor_qualification.go:403-405 | a complete chain ends with an image refused as a rollback, so the final check never fails |
| `ReceiptChain.LastFileDeterminesChain` | cmd/meld/anchor_qualification.go:357-410 | two accepted chains that end in the same file are the same chain, also in length |
| `PhaseProbe.SituationIffPhase` | cmd/meld/anchor_qualification.go:217-262 | the checks of a phase pass exactly in its situation: which members are up, what the quorum holds compared with the database, and how the opening ended |
| `PhaseProbe.RunProbe` | cmd/meld/anchor_qualification.go:152-297 | publishes a receipt exactly in the situation of its phase, right after an accepted receipt of the phase before in the same run, with well-formed evidence; that receipt is accepted and records what was observed |
| `PhaseProbe.PublishedStatesItsRelation` | cmd/meld/anchor_qualification.go:222-262 | a published receipt states the true relation of the database that was verified first; the recovered phase records the database after the opening, and the statement is true of that exactly if the relation stayed |
| `PhaseProbe.AcceptedIsRecordIff` | cmd/meld/anchor_qualification.go:458-556 | conversely an accepted receipt is what some probe would record in the situation of its phase exactly if it states its relation truly or is one of the recovered phase |
| `PhaseProbe.ProbedChainIsAcceptedIff` | cmd/meld/anchor_qualification.go:357-410 | the files of successive probes form an accepted chain exactly if no probe began before the one before it ended, none reused evidence, and the images went back at the rollback and only there |
| `PowerCycle.Adapter.AppendEvidence` | cmd/meld-power-redfish-adapter/main.go:442-454 | appends unless the observation repeats the last entry or the log is full, and keeps the log free of adjacent repetitions and within 512 entries |
| `PowerCycle.Adapter.GetSystem` | cmd/meld-power-redfish-adapter/main.go:293-326 | an answered read is the last entry of the log afterwards, appended or already there |
| `PowerCycle.Adapter.PostReset` | cmd/meld-power-redfish-adapter/main.go:329-350 | a reset is always attempted and is accepted exactly if it is answered with 200, 202 or 204 and its entry fits the log, which then ends with it |
| `PowerCycle.Adapter.WaitPowerState` | cmd/meld-power-redfish-adapter/main.go:353-365 | returns exactly at the first poll that shows the wanted state with room in the log, with the time of the last entry, which shows that state |
| `PowerCycle.Adapter.CheckTarget` | cmd/meld-power-redfish-adapter/main.go:235-253 | proceeds exactly for the approved machine that is on and advertises its own safe reset action with a power-off and a way back, which it prefers to be the plain one |
| `PowerCycle.Adapter.Cycle` | cmd/meld-power-redfish-adapter/main.go:264-279 | success means forced off, seen off, asked on, seen on, in this order, with times from entries at strictly increasing positions, and comes exactly if both requests are taken on and both states are seen before their deadlines with room in the log |
| `PowerCycle.Adapter.ExecutePowerCycle` | cmd/meld-power-redfish-adapter/main.go:217-290 | on every exit path a forced power-off is followed by an attempt to restore power, success is witnessed by trace and log, and archived evidence includes the restoration; it succeeds exactly if there is no earlier output, the first reading is the approved machine ready to be switched, the cycle succeeds and the evidence is written |
| `PowerCycle.ShortCycleSucceedsIff` | cmd/meld-power-redfish-adapter/main.go:264-279 | with no more polls than the log has room for, a cycle succeeds exactly if both requests are answered with an accepting code and the machine is read off after the one and on after the other |
| `VolumeFill.HalvingIsGradual` | cmd/meld/destructive_fill_linux.go:67-73 | a halved chunk is between a third and a half of the old one, for every block size |
| `VolumeFill.AttemptsBounded` | cmd/meld/destructive_fill_linux.go:56-74 | there are at most 28 halvings, and at most three attempts for each beside the free space divided by the first chunk |
| `VolumeFill.Fill` | cmd/meld/destructive_fill_linux.go:23-87 | success leaves less than one block free and has allocated the rest, without a device error; offsets stay within 63 bits; at most two successes follow each halving; every error gives the space back and has its named cause, a device error at the first attempt that meets one |
| `SampleHistory.History.Record` | admin/sampler.go:194-199 | the ring keeps the newest samples, as many as fit |
| `SampleHistory.History.ToSequence` | admin/sampler.go:330-338 | returns exactly the newest samples, oldest first |
| `SampleHistory.Slot.OfferLatest` | admin/sampler.go:215-237 | with any receives between the selects the last send succeeds, the sample is sent once and ends pending or received, and nothing is lost unaccounted |
| `SamplerRuns.RunKeeps` | admin/sampler.go:165-237 | invariant of every interleaving of captures, receives, subscriptions and closes |
| `SamplerRuns.DeliveryNeverFails` | admin/sampler.go:364-441 | no send after close, no double close, never the last default branch, never too many subscribers |
| `SamplerRuns.DeliveriesAddUp` | admin/sampler.go:203-237 | received sequences strictly increase, and offered equals received plus dropped plus pending |
| `SamplerRuns.SubscribersAreUpToDate` | admin/sampler.go:203-207 | between captures every subscriber has the newest sample received or pending |
| `SamplerRuns.DroppedIsTotal` | admin/sampler.go:203-207 | the published counter is the sum of the drops of all subscribers there ever were |
| `PageSamples.DeterministicPageSamples` | cmd/meld/destructive_corruption.go:285-298 | fills the slice with the samples in 64-bit arithmetic |
| `PageSamples.SpreadIffFits` | cmd/meld/destructive_corruption.go:285-298 | the samples strictly increase from the first page to the last with gaps of at most the rounded-up quotient exactly if no product overflows |
| `PageSamples.FilesFit` | cmd/meld/destructive_corruption.go:285-298 | which holds for every file with a signed 64-bit size and up to 128 samples |
| `PageSamples.SamplesAreReproduced` | cmd/meld/destructive_corruption.go:326 | sampling again with the number of samples as limit gives the same samples |
| `Corruption.TestPlace` | cmd/meld/destructive_corruption.go:207-226 | the verifier sees the source with exactly one bit flipped, and the copy is as before |
| `Corruption.TestPage` | cmd/meld/destructive_corruption.go:206-248 | the copy equals the source after every mutation and the counts follow the outcomes; what they count is `Corruption.FindingsCountOutcomes` |
| `Corruption.AllowedMetaOutcomes` | cmd/meld/destructive_corruption.go:254-282 | succeeds exactly if some slot decodes and all that do name one database, and then allows exactly their sequences |
| `Corruption.ExecuteCampaign` | cmd/meld/destructive_corruption.go:172-251 | completes exactly if the source verifies completely, its slots name one database and every sampled mutation is detected or opens as an allowed other state; baseline, pages and counts are determined by the source and add up |
| `Corruption.FindingsCountOutcomes` | cmd/meld/destructive_corruption.go:206-248 | in the findings of every campaign `detected` is the number of places whose mutated image is detected, and the count of each sequence the number of places whose image opens with it |
| `Corruption.CompletesIffHarmless` | cmd/meld/destructive_corruption.go:172-251 | there are findings exactly if the source verifies completely with one database and each mutated image is detected or opens as one of the source's own slots with another content |
| `Corruption.PlacesAreOffsets` | cmd/meld/destructive_corruption.go:205-210 | the places are the fourteen offsets in each sampled page of 4096 bytes, in order |
| `Corruption.CampaignTestsDistinctImages` | cmd/meld/destructive_corruption.go:205-226 | the pages of a completed campaign span the reported file exactly if no 64-bit product overflows, and then no image was tested twice |
| `Corruption.HonestReportsFit` | cmd/meld/destructive_corruption.go:205-226 | which holds for every file of a signed 64-bit size that is not reported with more pages than it has |
| `Corruption.TotalOutcomes` | cmd/meld/destructive_corruption.go:329-335 | the loop over the outcome map computes its sum in whatever order |
| `Corruption.ValidateReceipt` | cmd/meld/destructive_corruption.go:301-340 | accepts exactly receipts with valid identity, hash, baseline and times, with the deterministic pages and with counts that add up |
| `Corruption.Recheck` | cmd/meld/destructive_corruption.go:154-169 | accepts exactly if the artifact has the recorded hash and a campaign on it finds the recorded baseline, pages and counts |
| `Corruption.CorruptionCheck` | cmd/meld/destructive_corruption.go:93-113 | publishes a valid receipt of the campaign's findings under the source's own hash, and refuses only if there are no findings or the hash differs or is malformed, given a valid build, path and clock |
| `Corruption.OwnReceiptReproduces` | cmd/meld/destructive_corruption.go:154-169 | a campaign asked for as many pages as another has sampled finds the same, so a campaign's own receipt always rechecks |
| `Corruption.RecheckPinsFindings` | cmd/meld/destructive_corruption.go:154-169 | two receipts that recheck against one artifact with equally many pages have the same findings |
| `OverlapData.SeedMembership` | cmd/meld-query-observer/observer.go:334-356 | the batch loops give every document its two flags in order |
| `OverlapData.ClampIsIdle` | cmd/meld-query-observer/observer.go:974-981 | up to fifty per cent the clamp changes nothing |
| `OverlapData.BranchSizes` | cmd/meld-query-observer/observer.go:974-981 | both branches have half of the documents and share the requested percentage rounded half up |
| `CaptureWriter.Writer.Write` | admin/runtime_profile.go:232-258 | one write follows the specification for every behaviour of the underlying writer |
| `CaptureWriter.WritesAreBounded` | admin/runtime_profile.go:232-258 | written plus remaining is the limit, the output is a prefix of what was passed in, and the limit error means exactly the limit was written |
| `CaptureWriter.FirstErrorSticks` | admin/runtime_profile.go:235-237 | from the first error on nothing changes |
| `CaptureWriter.LimitIffExceeded` | admin/runtime_profile.go:238-256 | over a writer that takes everything the limit error comes exactly when more than the limit is passed in |

## Left out

- Search: the 32-bit masks of placed operations are finite sets of indices; packing them into machine words is not modelled.
- Enter: starts after the request has been validated; the protocol admits a call exactly if the request is valid by a clock that may read anything, also less than before.
- Handler: an agent without a state directory, which persists nothing, is not modelled.
- LoadDurableState: the two passes run over the files of one kind each, and which of several errors is reported first is not modelled.
- ExecutePowerCycle: the operation identifier derived from the response location, request identifiers and body digests in log entries are not modelled.
- RunProbe: flags, source revisions, the clean-build option and the two limits on the waiting times are not modelled; what the database, the members and the quorum answer is given.
- Fill: the volume is one on which an allocation succeeds exactly when it fits and which reports its true free space.
- AnswerStandsIffOnDisk: says nothing about states whose journal no restart accepts, whose operation the handler would refuse or whose lease is over.
- RequestStandsIffFiled: says nothing about states whose journal no restart accepts or has no room for another request.
- RestartsExactly: runs are those of agents whose configurations pass the checks that the service makes before it starts.
- ValidateReceipt: outcome counts of a corruption receipt are keyed by numbers, so a key with leading zeros, which the validation accepts and no recheck reproduces, is not modelled.
- ExecuteCampaign: read and write errors of the temporary copy are not modelled; a place outside the file fails the campaign.
- SeedMembership: the products are unbounded integers; document counts near the limits of 64 bits are not modelled.
- The storage engine, query planner and server, which the modelled tools only call.
- Ed25519, SHA-256, TLS, HMAC and certificate handling: abstracted as free constructors or left to the environment.
- HTTP handlers, flag parsing, JSON encoding, file modes, symlink checks and error texts: plumbing.
- Run-plan validation (distinct operations, known agents, 1 to 23 operations) and the retry of one agent request until its deadline.
- Health assessment, rates, Prometheus rendering and the dashboard: case splits and presentation.
- The counters of runtime captures and the process-wide slot that admits one capture at a time.
- Strings are sequences of characters; unsigned counters that are only compared or counted up are natural numbers.

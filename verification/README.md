# Photon on Solana: a verified model

The repository holds a cross-chain messaging endpoint on Solana, the Photon program, and the agents
around it: a listener that carries the endpoint's proposals away, and an executor that brings signed
operations to the endpoint. This project models both and proves what they are for.

## What is modelled

**The endpoint.** An operation is *loaded* by an executor, *signed* by transmitters until the
protocol's consensus rate is reached, and *executed*; governance operations, executed like any other,
change the transmitters, executors, proposers and rates in between. `State`, `Gov` and `Photon` give
every instruction as a function on all accounts of the program (`Photon.World`); a failing
transaction leaves the world as it was. `GovAccounts` and `Endpoint` are the handlers themselves, on
arrays and account fields, each proved to compute that function. `Quorum` and `Signing` are about one
signing step, `Runs` about all runs, with governance and repeated initialisation interleaved.
`Instructions` says who may call what, and exactly when each instruction succeeds and what it leaves;
`GovMessages` what each governance message does, by its literal code and decoded parameters.

**Encodings.** `ProtocolData` and `TransmitterData` hold the two independent encoders of the bytes
that are hashed. The hash wrapper is the version 0x45 ("E") form of ERC-191.

**The listener.** `RetroReader` pages backwards through a history that may grow before every
request. `ParseLogs` is the log parser, on real strings; `PrintLogs` prints arbitrary trees of calls,
texts and emitted events, and shows that parsing gives back the target's events. `Listener` is the protocol filter and the publisher with its one-slot
retry buffer, and the composition of everything from the chain to the broker.

**The executor.** `IxCompiler` packs instructions into messages. `OperationManager` is the retry loop
of one operation, `OpRegistry` the low watermark over announced operations, `SuspensionGate` the
balance gate shared by all tasks as a state machine over their interleavings. `ExecutorOnChain`
connects them with the endpoint: what a status read, an acknowledgement, a batch and a watermark
mean for the runs of the program. `EndToEnd` follows one proposal from the endpoint through the
listener to the operation that an executor would load for it.

`Bytes`, `FixedList` and `Wrappers` are shared: big-endian words, zero-terminated fixed-size arrays
used as lists, options and results.

Keccak, secp256k1 recovery, the ABI decoder, base64, event deserialisation and message sizes are
parameters, so every statement holds for all of them. Integers are unbounded, with the source's
widths as subset types; sums that can leave their width are checked, as the release profile does
(`overflow-checks = true`).

## Findings

Where the code and its documentation or names part ways, the model follows the code.

- `sign_operation` answers true without setting the status when the stored signers already meet the
  quorum on entry: `Signing.TrueMeansSignedExactlyUnlessEarly` says exactly when, and
  `Runs.EarlyReturnIsReachable` is a run in which it happens.
- `unique_signers` has 16 slots and there may be 20 transmitters; `Quorum.OverflowCondition` says exactly when
  a signature list can run off the end, and `Signing.OverflowsExactly` exactly which call does.
- Transmitters are de-duplicated only where they are adjacent, so the list is free of repeats exactly when
  equal entries stood together (`Gov.DedupDistinctExactly`; `Gov.AddingAgainRepeats` gives a, b, a). The
  quorum counts list entries, so repeats can put it out of reach: `Quorum.ApprovableExactly` says exactly
  when, and `Signing.RepeatBlocksApproval` shows it for a, b, a at the full rate.
- The guard of `remove_executor` looks at the protocol of the operation, always the governance
  protocol, so it protects the last executor of every target (`Gov.RemoveExecutorRefinement`).
- AddAllowedProtocol for a protocol with more transmitters than the new list keeps the rest of the
  old ones, and does not reject zero addresses (`Gov.AddAllowedProtocolEffect`).
- `receive_photon_msg` is an instruction of its own, and applies the handler named by its argument, not by
  the signed selector (`Governance.ChangesAreAuthorised`): with a code that names the signed handler it does
  what the execution does (`Governance.DirectLikeExecution`), with another it does not
  (`Governance.AnotherHandlerIsApplied`). It leaves the operation Signed, so it can be applied again
  (`Governance.AppliedAgain`); its authority ends exactly with its execution
  (`Governance.AuthorityEndsWithExecution`).
- The encoding is injective only for equal transaction id lengths and selectors under 256 bytes; without
  either, any operation gives a colliding pair (`ProtocolData.TxIdLengthsMatter`,
  `ProtocolData.SelectorLengthsMatter`).
- The executor hashes a selector's length byte as given while the contract recomputes it
  (`TransmitterData.PreimagesAgree`; [0, 5, 1] is hashed differently, `TransmitterData.PreimagesDiffer`).
- A logged text that ends in " success" costs its transaction all events; a text with " invoke" in it can
  hide the events after it without any error (`PrintLogs.ParsesExactlyWhenWellFormed`,
  `PrintLogs.SuccessInTextBreaksParsing`, `PrintLogs.InvokeInTextHidesEvents`).
- The compute total is added onto itself, so the declared limit over-approximates and can pass the
  maximum; `IxCompiler.DeclaredLimits` says exactly when, `IxCompiler.DeclaredLimitCanPassTheMaximum`
  shows two instructions that do it.
- The conversion of the selector panics on an unknown kind byte, and the executor converts unchecked
  bytes: one new operation with such a selector ends it, [2, 0] being one the contract itself writes
  (`OperationManager.PanicsExactly`, `OperationManager.DummySelectorPanics`).
- A balance request that fails sends its task back to the start, where the counter may have moved on:
  `SuspensionGate.DueCheckReads` says that a due check is skipped in no other way, and
  `SuspensionGate.FailedRequestSkipsTheCheck` shows two tasks with which it is.
- The executor counts only equal statuses in a row, so reads that keep going back never use up its
  attempts (`OperationManager.AlternatingReadsNeverEnd`); reads of one chain do not go back.

## Model

| member | source | states |
|---|---|---|
| Runs.QuorumSafety | programs/entangle-photon-sol/src/lib.rs:396-438 | Over every run, governance and re-initialisation interleaved: an operation that is Signed or Executed had, after some earlier signing step, pairwise distinct stored signers, each recovered from a signature over its hash by a step at which it was allowed, in number times 10000 at least the rate times the transmitters of that step |
| Runs.Lifecycle | programs/entangle-photon-sol/src/lib.rs:356-511 | Over every run, between any two moments: an operation does not disappear, its data does not change and hashes to its key, its status does not go back, its stored signers only grow |
| Runs.StepAdvances | programs/entangle-photon-sol/src/lib.rs:396-511 | Any instruction moves any operation by at most one stage, extends its signers, and keeps every stored operation well formed |
| Runs.LoadedAndExecutedOnce | programs/entangle-photon-sol/src/lib.rs:356-511 | Over every run the log has one load event for a hash exactly when the operation exists, and one execution event exactly when it is Executed |
| Runs.RecordsStayWellFormed | programs/entangle-photon-sol/src/gov.rs:81-456 | Over every run with good arguments of initialize and nonzero transmitters in the loaded AddAllowedProtocol messages, every protocol's arrays stay compact, its executors and proposers distinct, its rate at most 10000 and, once it is initialised, at least 1 |
| Runs.ExecutorsNeverVanish | programs/entangle-photon-sol/src/gov.rs:313-345 | Over every stretch of any run without initialize, a protocol that has an executor keeps one |
| Runs.ProposalsAreNumbered | programs/entangle-photon-sol/src/lib.rs:533-552 | Over every run the proposals, the program's own announcements included, carry the numbers 0, 1, 2, ... and the stored nonce is their count |
| Runs.EarlyReturnIsReachable | programs/entangle-photon-sol/src/lib.rs:413-415 | A run of five instructions after which signing answers true and the operation is still at Init |
| Governance.ChangesAreAuthorised | programs/entangle-photon-sol/src/lib.rs:573-596 | Over every run: outside initialize a protocol's record changes only by a Signed operation of the governance protocol that had its quorum at an earlier signing step and targets that protocol, at the hands of a governance executor, to what the named handler makes of it |
| Governance.DirectLikeExecution | programs/entangle-photon-sol/src/lib.rs:573-596 | Applying a Signed operation directly, under a code that names the signed handler, has the effect of its execution on configuration, records and events, but leaves it Signed |
| Governance.AnotherHandlerIsApplied | programs/entangle-photon-sol/src/lib.rs:573-596 | A Signed AddExecutor operation applied directly under the code of RemoveExecutor drops the key it was signed to add |
| Governance.AppliedAgain | programs/entangle-photon-sol/src/lib.rs:573-596 | Of two Signed SetConsensusTargetRate operations applied directly one after the other, the first can be applied again and its rate is back |
| Governance.AuthorityEndsWithExecution | programs/entangle-photon-sol/src/lib.rs:441-512 | Over every run a Signed operation stays Signed exactly until it is executed; applying it directly does not use it up |
| Instructions.OperationsChangeByExecutors | programs/entangle-photon-sol/src/lib.rs:674-790 | Over every run: an operation appears or changes only by a load, signing or execution that names it, called by a key that is, in the world before, in one of the 20 executor slots of that operation's protocol |
| Instructions.EventsNameExecutors | programs/entangle-photon-sol/src/lib.rs:356-512 | Over every run: every load, approval and execution event names the operation and the caller of the instruction that added it, an executor of that operation's protocol in the world before |
| Instructions.ProposalsNameProposers | programs/entangle-photon-sol/src/lib.rs:533-553 | Over every run: a proposal event comes from a proposer of the protocol it names, or announces a governance message |
| Instructions.StoredOperationsAreAdmissible | programs/entangle-photon-sol/src/lib.rs:356-380 | Over every run: every stored operation is for this chain, of a nonzero 32-byte protocol that exists, and hashes to its key |
| Instructions.AdminChangesAreAuthorised | programs/entangle-photon-sol/src/lib.rs:603-656 | Over every run: the admin changes only by the deployer, who sets any admin or initialises and becomes it |
| Instructions.LoadExactly | programs/entangle-photon-sol/src/lib.rs:356-380 | Loading succeeds exactly for an executor, a fresh hash, the matching hash, this chain, the protocol's address and a nonzero protocol id; it adds that operation at Init with empty signers and one event, nothing else |
| Instructions.SignExactly | programs/entangle-photon-sol/src/lib.rs:396-439 | Signing succeeds exactly for an executor of a loaded or Signed operation whose signatures can be processed; it changes that operation alone and emits an approval exactly when this call approved it |
| Instructions.ExecuteExactly | programs/entangle-photon-sol/src/lib.rs:441-512 | Execution succeeds exactly for an executor of a Signed operation with the target program as first account, a real selector and a successful call; the call to this program itself is the governance message; status and event follow it |
| Instructions.ProposeExactly | programs/entangle-photon-sol/src/lib.rs:533-553 | Proposing succeeds exactly for a key in the protocol's proposer slots while the nonce has room and the selector fits; every field of the event is stated |
| Instructions.InitializeExactly | programs/entangle-photon-sol/src/lib.rs:316-340 | Initialising succeeds exactly for the deployer or the stored admin with lists that fit; every setting and slot it leaves is stated |
| Instructions.SetAdminExactly | programs/entangle-photon-sol/src/lib.rs:603-606 | Only the deployer changes the admin, and nothing else with it |
| Instructions.ReceiveExactly | programs/entangle-photon-sol/src/lib.rs:573-596 | A governance message is applied exactly for a governance executor with a Signed governance operation addressed to this program; it replaces the target's record and nothing else among the records |
| Signing.SignOpEffect | programs/entangle-photon-sol/src/lib.rs:396-438 | After a signing step: the earlier signers are kept as a prefix, each new one was allowed and recovered from a supplied signature, approval means the rate is met, and the answer is true exactly when the stored signers reach it |
| Signing.SignedExactlyAtQuorum | programs/entangle-photon-sol/src/lib.rs:401-438 | With recoverable signatures and the quorum not yet reached, the operation is approved exactly when the set of stored and supplied allowed signers meets it |
| Signing.TrueMeansSignedExactlyUnlessEarly | programs/entangle-photon-sol/src/lib.rs:413-415 | A true answer leaves an operation at Init exactly when its stored signers met the quorum before the call, and then no signatures change it |
| Signing.RepeatBlocksApproval | programs/entangle-photon-sol/src/lib.rs:410-423 | With transmitters a, b, a at the full rate no signatures approve an operation whose stored signers are among these |
| Signing.WriteBackFits | programs/entangle-photon-sol/src/lib.rs:434-437 | When the quorum is at most 16, the write-back to the 16 slots never panics, whatever was stored before |
| Signing.OverflowsExactly | programs/entangle-photon-sol/src/lib.rs:416-437 | From below the quorum and with recoverable signatures, a call panics at the write-back exactly when the quorum and the number of distinct signers, stored or supplied, both exceed 16 |
| Signing.ChunkedSigningEqualsSingleShot | programs/entangle-photon-sol/src/lib.rs:396-438 | Signing with a ++ b succeeds exactly when signing with a and then b does, with the same accounts, events and answer |
| Quorum.QuorumArithmetic | programs/entangle-photon-sol/src/lib.rs:410-423 | The floor-division test holds exactly when k * 10000 >= rate * n, exactly when k is at least the rounded-up share; a rate up to 10000 never needs more than n signers |
| Quorum.CollectInvariant | programs/entangle-photon-sol/src/lib.rs:416-432 | The signing loop extends the stored signers by distinct, allowed, supplied ones |
| Quorum.CollectRefinesSet | programs/entangle-photon-sol/src/lib.rs:416-432 | The early-exit loop reaches the quorum exactly when the union of stored and supplied allowed signers does; otherwise it collects that union, and if so it stops at exactly the quorum size |
| Quorum.OrderAndDuplicatesIrrelevant | programs/entangle-photon-sol/src/lib.rs:416-432 | Two lists of the same signatures in any order and with any repeats give the same outcome |
| Quorum.OverflowCondition | programs/entangle-photon-sol/src/lib.rs:434-437 | Some signatures overflow the 16 slots exactly when the quorum is more than 16 and there are more than 16 distinct candidates |
| Quorum.ApprovableExactly | programs/entangle-photon-sol/src/lib.rs:401-432 | Some recoverable signatures reach the quorum exactly when the distinct stored and allowed signers are enough; they always are when no transmitter is repeated |
| Quorum.CollectFailsExactly | programs/entangle-photon-sol/src/lib.rs:416-432 | From below the quorum the loop fails exactly when some signature is unrecoverable and the recoverable ones before it do not reach the quorum |
| Signing.FailsForSignaturesExactly | programs/entangle-photon-sol/src/lib.rs:416-432 | A call fails for its signatures exactly when an unrecoverable one comes before the others have reached the quorum |
| Endpoint.PhotonProgram.Initialize | programs/entangle-photon-sol/src/lib.rs:316-340 | The handler computes the new world, or fails with the same error and changes nothing |
| Endpoint.PhotonProgram.LoadOperation | programs/entangle-photon-sol/src/lib.rs:356-380 | The same for loading, account constraints included |
| Endpoint.PhotonProgram.SignOperation | programs/entangle-photon-sol/src/lib.rs:396-439 | The same for signing, with the accumulated signers written back to fresh slots |
| Endpoint.PhotonProgram.CollectSigners | programs/entangle-photon-sol/src/lib.rs:416-432 | The loop with its break computes the recursive specification whose properties Quorum proves |
| Endpoint.PhotonProgram.ExecuteOperation | programs/entangle-photon-sol/src/lib.rs:441-512 | The same for execution, the governance self-call included |
| Endpoint.PhotonProgram.Propose | programs/entangle-photon-sol/src/lib.rs:533-553 | The same for proposing |
| Endpoint.PhotonProgram.ReceivePhotonMsg | programs/entangle-photon-sol/src/lib.rs:573-596 | The same for a governance message |
| Endpoint.PhotonProgram.SetAdmin | programs/entangle-photon-sol/src/lib.rs:603-606 | The same for changing the admin |
| Gov.UpdateTransmittersSet | programs/entangle-photon-sol/src/gov.rs:412-426 | UpdateTransmitters leaves the set (old minus removed) union the nonzero added, compactly |
| Gov.AddTransmittersProperties | programs/entangle-photon-sol/src/gov.rs:366-381 | Adding is refused exactly when the joined, adjacently de-duplicated list has 20 entries or more; otherwise the set is the union |
| Gov.RemoveTransmittersProperties | programs/entangle-photon-sol/src/gov.rs:400-410 | Removing leaves the set difference, compactly |
| Gov.DedupProperties | programs/entangle-photon-sol/src/gov.rs:366-381 | Adjacent de-duplication keeps the set and leaves no equal neighbours |
| Gov.DedupDistinctExactly | programs/entangle-photon-sol/src/gov.rs:366-381 | Its result is free of repeats exactly when equal entries stood next to each other |
| Gov.AddingAgainRepeats | programs/entangle-photon-sol/src/gov.rs:366-381 | Adding a to the transmitters a, b gives a, b, a |
| Gov.AddExecutorRefinement | programs/entangle-photon-sol/src/gov.rs:275-311 | An executor is appended exactly when it is nonzero, new and there is room |
| Gov.RemoveExecutorRefinement | programs/entangle-photon-sol/src/gov.rs:313-346 | Removal drops the key from list and set, and is refused exactly when a governance operation would leave none |
| Gov.ProposerListRefinement | programs/entangle-photon-sol/src/gov.rs:203-273 | The same for adding and removing proposers |
| Gov.GovKeepsWellFormed | programs/entangle-photon-sol/src/gov.rs:81-181 | Every governance message keeps its target's record well formed and initialised |
| Gov.GovKeepsAnExecutor | programs/entangle-photon-sol/src/gov.rs:313-346 | No governance message empties a non-empty executor list |
| Gov.AddAllowedProtocolEffect | programs/entangle-photon-sol/src/gov.rs:126-181 | Accepted exactly with a rate in 1..10000, at most 20 transmitters and a nonce left; says for any arrays which transmitters the protocol then has, when these are just the new ones, when the array stays compact, and that it is announced under the next number |
| GovMessages.AddAllowedProtocolMessage | programs/entangle-photon-sol/src/gov.rs:126-181 | Code 45a004b9 with target, rate and transmitters: exactly when it succeeds, every slot and field it leaves, and every field of the announcement |
| GovMessages.AddAddressMessage | programs/entangle-photon-sol/src/gov.rs:184-197 | Code d296a0ff sets the protocol address to the 32 bytes given, nothing else |
| GovMessages.RemoveAddressMessage | programs/entangle-photon-sol/src/gov.rs:199-201 | Code b0a4ca98 sets the protocol address to zero, nothing else |
| GovMessages.AddProposerMessage | programs/entangle-photon-sol/src/gov.rs:203-244 | Code ce0940a5 appends the key to the proposers exactly when it is nonzero, new and there is room, and changes nothing else |
| GovMessages.RemoveProposerMessage | programs/entangle-photon-sol/src/gov.rs:246-273 | Code b8e5f3f4 leaves the proposers without the key, in order, nothing else |
| GovMessages.AddExecutorMessage | programs/entangle-photon-sol/src/gov.rs:275-311 | Code e0aafb68 appends the key to the executors exactly when it is nonzero, new and there is room, and changes nothing else |
| GovMessages.RemoveExecutorMessage | programs/entangle-photon-sol/src/gov.rs:313-346 | Code 04fa384a leaves the executors without the key, in order, nothing else, unless a governance operation would leave none |
| GovMessages.AddTransmittersMessage | programs/entangle-photon-sol/src/gov.rs:348-381 | Code 6c5f5666 leaves the transmitters' set united with the nonzero ones given, nothing else; says exactly when it is refused |
| GovMessages.RemoveTransmittersMessage | programs/entangle-photon-sol/src/gov.rs:383-410 | Code 5206da70 always succeeds and leaves the transmitters without those given, in order, nothing else |
| GovMessages.UpdateTransmittersMessage | programs/entangle-photon-sol/src/gov.rs:412-426 | Code 654b46e1 with target, a list and a second list: the transmitters' set becomes old minus the second list, united with the nonzero ones of the first, nothing else; says exactly when it is refused |
| GovMessages.SetRateMessage | programs/entangle-photon-sol/src/gov.rs:428-456 | Code 970b6109 sets the rate exactly when it is from 1 to 10000, nothing else |
| GovMessages.OtherMessages | programs/entangle-photon-sol/src/gov.rs:59-124 | No other code is handled, nor one of these whose parameters do not decode; only the removal of an address does not look at them |
| Gov.ListsAreSlotsBeforeZero | programs/entangle-photon-sol/src/lib.rs:990-1000 | The lists of a record are its 20 slots up to the first zero |
| Runs.InitializeEffect | programs/entangle-photon-sol/src/lib.rs:316-340 | The governance protocol has exactly the given nonzero lists afterwards; other protocols, operations, events and the nonce are as before |
| GovAccounts.HandleGovOperation | programs/entangle-photon-sol/src/gov.rs:81-124 | The dispatch on stored arrays computes the specified record, configuration and events, or an error |
| GovAccounts.ProtocolAccount.UpdateTransmitters | programs/entangle-photon-sol/src/gov.rs:412-426 | The array rewrite computes the specified record |
| GovAccounts.ProtocolAccount.AddTransmitters | programs/entangle-photon-sol/src/gov.rs:366-381 | The array rewrite computes the specified record |
| GovAccounts.ProtocolAccount.RemoveExecutor | programs/entangle-photon-sol/src/gov.rs:313-346 | The array rewrite computes the specified record |
| GovAccounts.ProtocolAccount.AddAllowedProtocol | programs/entangle-photon-sol/src/gov.rs:126-181 | The record is set up, the rate checked and the announcement numbered as specified |
| ProtocolData.EncodingDeterminesOperation | programs/entangle-photon-sol/src/protocol_data.rs:156-180 | With 32-byte protocol ids, equal transaction id lengths and selectors under 256 bytes, two encodings are equal exactly when all fields are, up to the split of params and reserved |
| ProtocolData.TxIdLengthsMatter | programs/entangle-photon-sol/src/protocol_data.rs:156-180 | Any operation gives two with equal encodings and different transaction ids that agree in every field a load checks |
| ProtocolData.SelectorLengthsMatter | programs/entangle-photon-sol/src/protocol_data.rs:156-180 | 256 more bytes of code are encoded like the same bytes in front of the params |
| ProtocolData.HashDeterminesOperation | programs/entangle-photon-sol/src/protocol_data.rs:182-243 | Two operations have one hash exactly when they are equal up to that split or one of two named pairs of bytes is a collision of the hash function |
| ProtocolData.SelectorRoundTrip | programs/entangle-photon-sol/src/protocol_data.rs:95-136 | A written selector reads back exactly when it is not Dummy; writing fails exactly above 32 bytes; what is written is a kind byte, a length byte and the payload |
| ProtocolData.EncodingLayout | programs/entangle-photon-sol/src/protocol_data.rs:156-180 | Where each field is in the hashed bytes, position by position |
| ProtocolData.HashPrefix | programs/entangle-photon-sol/src/protocol_data.rs:182-243 | The operation's hash is that of the literal prefix followed by the hash of its bytes |
| ProtocolData.RecoversExactly | programs/entangle-photon-sol/src/protocol_data.rs:245-261 | Which signatures recover, and that the address is the last 20 bytes of the hash of the recovered key |
| ProtocolData.RecoveryIds | programs/entangle-photon-sol/src/protocol_data.rs:252-261 | v and v + 27 recover alike |
| ProtocolData.BuildOpDataEvm | programs/entangle-photon-sol/src/protocol_data.rs:156-180 | Filling the buffer field by field gives the specified bytes, or panics on a dummy selector |
| ProtocolData.BuildHashWithMessage | programs/entangle-photon-sol/src/protocol_data.rs:222-243 | The fixed buffer holds the prefix and the data when it is hashed |
| Bytes.U64WordValue | programs/entangle-photon-sol/src/util.rs:47-52 | A word read back as a big-endian number is the value; equal words come from equal values |
| Bytes.U128WordValue | programs/entangle-photon-sol/src/util.rs:54-58 | The same for 128-bit values |
| Bytes.FillU64 | programs/entangle-photon-sol/src/util.rs:47-52 | Copying into the zeroed buffer gives the word |
| TransmitterData.PreimagesAgree | transmitter-common/src/data.rs:145-178 | Whenever conversion succeeds, executor and contract hash the same bytes exactly when the selector's length byte is its payload's length mod 256 |
| TransmitterData.PreimagesDiffer | transmitter-common/src/data.rs:145-178 | With the selector [0, 5, 1] the two sides hash different bytes |
| TransmitterData.PreimagesAgreeOnWrittenSelector | transmitter-common/src/data.rs:145-178 | A selector written by the contract converts back to itself and is hashed alike on both sides |
| TransmitterData.BuildOpDataEvm | transmitter-common/src/data.rs:145-160 | Extending the buffer field by field gives the specified bytes |
| RetroReader.SolanaRetroReader.ReadEventsBackward | transmitter-module/src/common/solana_logs/solana_retro_reader.rs:41-115 | After any number of rounds over a growing chain: sent are exactly the successful, logging transactions after the start up to a position at least the chain's length when the last round began, oldest first, each once, and exactly the first round's ask to be checked |
| RetroReader.SolanaRetroReader.Turn | transmitter-module/src/common/solana_logs/solana_retro_reader.rs:63-114 | One round sends exactly what lies between its cursor and a position at least the chain's length when it began, and leaves a cursor from which nothing is skipped |
| RetroReader.SolanaRetroReader.CollectRound | transmitter-module/src/common/solana_logs/solana_retro_reader.rs:75-110 | The inner paging ends, with any page sizes, and has collected the whole stretch in order |
| RetroReader.SolanaRetroReader.ProcessSignatures | transmitter-module/src/common/solana_logs/solana_retro_reader.rs:133-201 | A page is put in front of what was collected, in chain order |
| RetroReader.RoundAdvances | transmitter-module/src/common/solana_logs/solana_retro_reader.rs:55-114 | A round's delivery appends to what was delivered, and a cursor at its newest delivered transaction skips and repeats nothing |
| RetroReader.DeliveredCarries | transmitter-module/src/common/solana_logs/solana_retro_reader.rs:154-201 | What is delivered, in the fields of the transactions alone: one bunch for each entry that is there with its meta, did not fail and logged something, with that entry's signature, slot and logs, in order; those before the first round's end ask for a check |
| RetroReader.PositionsExactly | transmitter-module/src/common/solana_logs/solana_retro_reader.rs:154-201 | The positions listed are exactly those of such entries, increasing |
| RetroReader.Chain.SignaturesChunk | transmitter-module/src/common/solana_logs/solana_retro_reader.rs:203-225 | The node's contract: newest first, exclusive at both ends, any non-empty size |
| ParseLogs.ParseLogs | transmitter-module/src/common/solana_logs/parse_logs.rs:48-81 | The loop over the mutable stack with its delayed pop computes the machine's run |
| ParseLogs.RunAppend | transmitter-module/src/common/solana_logs/parse_logs.rs:48-81 | Running over a concatenation is running over the parts |
| PrintLogs.ParseUndoesPrint | transmitter-module/src/common/solana_logs/parse_logs.rs:32-141 | For every well-formed tree of calls, texts and emitted events, of any depth and with self-recursion: parsing the printed lines gives exactly the events of the target's emit nodes, in order, whether printed behind "Program data: " or "Program log: " |
| PrintLogs.ParsesExactlyWhenWellFormed | transmitter-module/src/common/solana_logs/parse_logs.rs:32-141 | For every such tree in which no text is taken for a call or for an event: parsing succeeds exactly when the tree is well formed, and exactly then gives its events |
| PrintLogs.ForestRuns | transmitter-module/src/common/solana_logs/parse_logs.rs:10-81 | From any state of the machine, a printed forest gives its own events and restores the effective stack |
| PrintLogs.LineReadings | transmitter-module/src/common/solana_logs/parse_logs.rs:32-141 | How a line is read, in literal prefixes: as a call, as a return, and as a text behind "Program log: " or "Program data: " |
| PrintLogs.CallReading | transmitter-module/src/common/solana_logs/parse_logs.rs:32-46 | The program that is called is what stands between "Program " and the last " invoke" |
| PrintLogs.SuccessInTextBreaksParsing | transmitter-module/src/common/solana_logs/parse_logs.rs:122-141 | A concrete log in which a text taken for a return makes parsing fail |
| PrintLogs.InvokeInTextHidesEvents | transmitter-module/src/common/solana_logs/parse_logs.rs:32-46 | After a text taken for a call, the event that the target emits next is lost and parsing reports success |
| Listener.NothingLostOrReordered | transmitter-module/src/listener_app/rabbitmq_publisher.rs:45-96 | Over every run of the listener, also one ended by a panic of the parser: published, buffered, queued and still unparsed proposals are together exactly the allowed proposals parsed from the delivered part of the chain, in chain order |
| Listener.RoundIsTwoMoves | transmitter-module/src/common/solana_logs/solana_retro_reader.rs:63-114 | What a round of the reader's code ensures is, on the listener's state, growth of the chain followed by a reading move that sends the same bunches |
| Listener.PublishKeepsAll | transmitter-module/src/listener_app/rabbitmq_publisher.rs:52-96 | A turn of the publisher loses and reorders nothing; an accepted one makes progress unless there was nothing to publish |
| Listener.ProposalExactly | transmitter-module/src/listener_app/solana_logs_processor.rs:61-96 | An event becomes a proposal exactly when its protocol is allowed and its transaction's signature decodes; every field of the proposal is stated |
| Listener.ProposalsInOrder | transmitter-module/src/listener_app/solana_logs_processor.rs:61-96 | The proposals of a list of events are those of its parts in order, at most one each |
| Listener.PaddedNameBytes | transmitter-module/src/listener_app/solana_logs_processor.rs:32-42 | An allowed name is matched by its first 32 bytes, zero-padded |
| Listener.ShortIdIsDropped | transmitter-module/src/listener_app/rabbitmq_publisher.rs:52-96 | A proposal whose transaction id has no second 32-byte chunk is dropped, buffered or queued, and the next may follow |
| EndToEnd.ProposalArrives | transmitter-module/src/listener_app/solana_logs_processor.rs:61-96 | What is proposed is what arrives: a successful proposal under an allowed protocol becomes a record that converts to an operation with the proposed selector, params, chain, address and number, and both sides hash the same bytes for it |
| Listener.PrintedLogsYieldTheirEvents | transmitter-module/src/common/solana_logs/event_processor.rs:10-31 | A transaction whose log was printed from a well-formed forest yields the proposals of its own events |
| Listener.PrintedChainArrives | transmitter-module/src/common/solana_logs/event_processor.rs:10-31 | Over every run on a chain whose delivered logs were printed from well-formed forests: the listener does not stop, and what it has published and holds is exactly the allowed proposals logged by the delivered transactions' calls, in chain order |
| Listener.PadName | transmitter-module/src/listener_app/solana_logs_processor.rs:32-42 | A protocol name is cut or zero-padded to 32 bytes |
| Listener.ProposalEventProcessor.HandleLogs | transmitter-module/src/common/solana_logs/event_processor.rs:10-31 | A bunch's proposals are appended to the channel in order; one that does not parse adds nothing, and one that makes the parser panic is reported |
| Listener.ProposalEventProcessor.HandleEvent | transmitter-module/src/listener_app/solana_logs_processor.rs:61-96 | An event adds its proposal exactly when its protocol is allowed |
| Listener.RabbitmqPublisher.Turn | transmitter-module/src/listener_app/rabbitmq_publisher.rs:45-96 | One turn over the retry buffer and the channel computes the specified outbox |
| IxCompiler.PackAllPreservesProgram | solana-transactor/src/ix_compiler.rs:62-167 | For every accepted list, the messages' instructions concatenated are the input in order; no message is empty, each compiles to at most 1167 bytes, really costs at most 1400000 and at most what it declares, which stays below 2400000 |
| IxCompiler.CompileKeeps | solana-transactor/src/ix_compiler.rs:62-146 | One call keeps the buffer within the limits, emits only good messages, and moves every instruction on in order |
| IxCompiler.CompileRefuses | solana-transactor/src/ix_compiler.rs:69-146 | A call fails exactly when the instruction is too big alone or a message does not compile; the u32 additions never overflow |
| IxCompiler.CompileEmitsExactly | solana-transactor/src/ix_compiler.rs:69-146 | Exactly when a call emits, which message with which limit, and what stays buffered, with the limits 1167, 1135, 1400000 and 1200000 |
| IxCompiler.MessagesKeepTables | solana-transactor/src/ix_compiler.rs:62-167 | Every message comes with the tables of its instructions |
| IxCompiler.FlushKeeps | solana-transactor/src/ix_compiler.rs:148-167 | Flushing never fails and emits exactly the buffer |
| IxCompiler.RefusedExactlyWhenTooBig | solana-transactor/src/ix_compiler.rs:69-146 | When a message over the caller's tables that fits compiles together with an instruction of the list that fits, the list is refused exactly when some instruction is too big alone |
| IxCompiler.DeclaredLimits | solana-transactor/src/ix_compiler.rs:102-145 | Every message declares the total it was checked with if that came near a limit, and otherwise the running total; says exactly when it declares its real cost and when more than 1400000 |
| IxCompiler.TotalIsRealCostExactly | solana-transactor/src/ix_compiler.rs:144-144 | That total is the real cost exactly when nothing but the last instruction costs anything |
| IxCompiler.DeclaredLimitCanPassTheMaximum | solana-transactor/src/ix_compiler.rs:144-144 | Any two instructions that leave room in one message declare 1600000 when they cost 600000 and 400000 |
| IxCompiler.IxCompiler.Compile | solana-transactor/src/ix_compiler.rs:62-146 | The call on the mutable buffers computes the specified step; a failing call changes nothing |
| IxCompiler.IxCompiler.Flush | solana-transactor/src/ix_compiler.rs:148-167 | The same for flushing |
| IxCompiler.Transactor.SendAllInstructions | solana-transactor/src/transactor.rs:350-384 | All messages are compiled before the first is sent; a refused list sends nothing |
| OperationManager.OperationManager.ProcessOperation | transmitter-module/src/executor_app/operation_manager.rs:122-173 | Whenever some round does not continue, the loop ends at the first such round with its result, a panic included, its acknowledgement and its batches |
| OperationManager.OperationManager.ExecuteOperation | transmitter-module/src/executor_app/operation_manager.rs:106-118 | An operation is announced before it is processed and acknowledged at most once more; says exactly when processing it panics, which ends the executor |
| OperationManager.RetryBound | transmitter-module/src/executor_app/operation_manager.rs:130-171 | At most 3 * max(1, executor_attempts) batches are submitted |
| OperationManager.OrderedReadsEnd | transmitter-module/src/executor_app/operation_manager.rs:130-171 | Reads that never go back end the loop within 3 * max(1, executor_attempts) rounds after the first |
| OperationManager.AlternatingReadsNeverEnd | transmitter-module/src/executor_app/operation_manager.rs:141-150 | Reads that alternate between New and Loaded never end it |
| OperationManager.BoundIsReached | transmitter-module/src/executor_app/operation_manager.rs:130-171 | Reads exist that use the whole bound |
| OperationManager.RepeatsExactly | transmitter-module/src/executor_app/operation_manager.rs:141-150 | The attempt counter reaches n exactly when the last n reads before this one were all equal to it |
| OperationManager.RoundExactly | transmitter-module/src/executor_app/operation_manager.rs:130-171 | Every round's outcome: by the status read, then by how often it was read, then by building and sending |
| OperationManager.BatchCarries | transmitter-module/src/executor_app/operation_manager.rs:286-470 | A batch is the steps still missing, in order: the operation's own data field by field, its own signatures, the extension's accounts, at fixed costs or the extension's budget |
| OperationManager.BatchExactly | transmitter-module/src/executor_app/operation_manager.rs:286-470 | Exactly when a batch can be built |
| OperationManager.PanicsExactly | transmitter-module/src/executor_app/operation_manager.rs:286-363 | A round panics exactly when its operation is still to be loaded and the selector's kind byte is unknown to the conversion; the panic of build_ixs itself is never reached |
| OperationManager.DummySelectorPanics | transmitter-module/src/executor_app/operation_manager.rs:321-363 | The selector [2, 0] ends the first round of a new operation in a panic, with nothing sent and no final acknowledgement |
| OpRegistry.OpRegistry.OnAck | transmitter-module/src/executor_app/last_block_updater.rs:103-129 | The entry is created if missing, and the operation added or removed |
| OpRegistry.OpRegistry.GetBlockToAck | transmitter-module/src/executor_app/last_block_updater.rs:131-147 | Returned is the greatest block such that it and all known before it are drained and aged when looked at; exactly the blocks up to it are dropped |
| OpRegistry.HoldsExactlyPending | transmitter-module/src/executor_app/last_block_updater.rs:103-147 | Over every run the registry holds exactly the operations announced and not finished since |
| OpRegistry.WatermarkSafety | transmitter-module/src/executor_app/last_block_updater.rs:103-147 | Over every run: when block b is returned, everything announced for a block up to b has since been reported Executed or Failed |
| OpRegistry.ReachedExactlyWhenDone | transmitter-module/src/executor_app/last_block_updater.rs:131-147 | A poll reaches a known block exactly when all known blocks up to it are aged and nothing of theirs is pending |
| OpRegistry.ResultsIncrease | transmitter-module/src/executor_app/last_block_updater.rs:131-147 | Results strictly increase while no acknowledgement arrives for a block already passed |
| OpRegistry.KnownExactlyListed | transmitter-module/src/executor_app/last_block_updater.rs:103-147 | Over every run a block is known exactly when it was acknowledged and not dropped since |
| OpRegistry.AgeCountsFromFirstAck | transmitter-module/src/executor_app/last_block_updater.rs:103-110 | Over every run a known block's age counts from the first acknowledgement for it since it was last dropped |
| OpRegistry.NotWithinTimeout | transmitter-module/src/executor_app/last_block_updater.rs:131-147 | Over every run no block is returned, or passed, within the timeout of that acknowledgement |
| ExecutorOnChain.WatermarkMeansDone | transmitter-module/src/executor_app/last_block_updater.rs:103-147 | With any interleaving of executor jobs over any run of the endpoint: when block b is returned, everything announced up to b was executed on chain exactly once, or a job for it read one status too often |
| ExecutorOnChain.AcknowledgementsAreTrue | transmitter-module/src/executor_app/operation_manager.rs:141-155 | Executed is acknowledged only when it is so on chain, from then on and exactly once; Failed only after the attempts were used up |
| ExecutorOnChain.ReadsNeverGoBack | transmitter-module/src/executor_app/operation_manager.rs:181-210 | Reads of any run of the endpoint never go back, so the loop ends and the retry bound holds for them |
| ExecutorOnChain.BatchCompletesOperation | transmitter-module/src/executor_app/operation_manager.rs:286-318 | A batch whose instructions all succeed leaves the operation executed, which it was not before; the status it was built for bounds the one it can succeed on |
| ExecutorOnChain.FreshBatchExecutes | transmitter-module/src/executor_app/operation_manager.rs:286-318 | Where the endpoint admits a new operation and its own signatures reach the quorum, the whole batch that the executor builds for it succeeds and executes it |
| SuspensionGate.GateSafety | transmitter-module/src/executor_app/operation_manager.rs:227-284 | Any number of tasks, any interleaving: the notifier is set exactly while one task polls, the expect never fires, and a task passes only when a sufficient balance was read, a suspended one only when it was read after the notifier was installed |
| SuspensionGate.StepKeepsOnePoller | transmitter-module/src/executor_app/operation_manager.rs:253-282 | Every step keeps the notifier and the single poller together |
| SuspensionGate.WaiterHasAPoller | transmitter-module/src/executor_app/operation_manager.rs:253-264 | Whenever a task waits, its notifier is the installed one and exactly one task polls for it |
| SuspensionGate.ResumeWakesAll | transmitter-module/src/executor_app/operation_manager.rs:273-282 | The resuming poller lets every waiting task pass and leaves none waiting |
| SuspensionGate.WokenByThePoller | transmitter-module/src/executor_app/operation_manager.rs:265-282 | In every reachable state a waiting task passes three steps after the polling one reads enough |
| SuspensionGate.DueCheckReads | transmitter-module/src/executor_app/operation_manager.rs:227-251 | Over every run: a task that starts over while the number of passes is a multiple of the period goes on, to pass in particular, only after a reading of its own made since, unless its request failed and it started over again |
| SuspensionGate.FailedRequestSkipsTheCheck | transmitter-module/src/executor_app/operation_manager.rs:234-236 | That exception happens: a due request fails, the other task goes on, and the first passes with no new reading |
| SuspensionGate.DueExactly | transmitter-module/src/executor_app/operation_manager.rs:230-236 | A task that starts over asks for the balance exactly when the counter is a multiple of the period |
| SuspensionGate.CheckedAgainstLatest | transmitter-module/src/executor_app/operation_manager.rs:237-251 | Over every run: a task is checked against the latest balance stored, and passes exactly when that is enough |
| SuspensionGate.PollsUntilEnough | transmitter-module/src/executor_app/operation_manager.rs:270-282 | The polling task stops polling exactly at the first balance it reads that is enough |
| SuspensionGate.CounterCountsPasses | transmitter-module/src/executor_app/operation_manager.rs:135-135 | Over every run the counter is the number of passes, in 64 bits |
| SuspensionGate.TheWayRound | transmitter-module/src/executor_app/operation_manager.rs:130-284 | What has been read is stored before it is checked, a task suspends behind the installed notifier or installs one, and an operation that goes round again starts over |

## Left out

- Solana RPC, RabbitMQ, MongoDB, reconnects, timeouts and sleeps: they appear as results that are given or may be anything; a status or transaction request that is retried until it answers is one answer.
- Keccak, signature recovery, program-derived addresses, the ABI, borsh, JSON and base64 codecs, and the size of compiled messages: uninterpreted functions. The kinds of malformed signatures are one error.
- Account rent, space and payer constraints, and the order of account constraints among themselves.
- Foreign programs called by execute_operation: they succeed or fail and leave the endpoint's accounts alone. A program that proposes while it is called is covered as a proposal step of its own; a self-call with a by-name selector counts as foreign.
- Runs.ExecutorsNeverVanish: does not cover initialize, which replaces the executor list of the governance protocol and checks none of its lists.
- Runs.RecordsStayWellFormed: needs nonzero, distinct arguments of initialize and nonzero transmitters in the AddAllowedProtocol messages that are loaded, because the code checks neither.
- Gov.GovKeepsWellFormed: does not make transmitters duplicate-free, because only neighbours are compared.
- PrintLogs.ParsesExactlyWhenWellFormed: does not cover trees with texts taken for a call, where a later text taken for a return can cancel the mistake; a text that decodes to an event is an emit node.
- RetroReader.Chain.SignaturesChunk: does not model signatures that fail to parse, or history that a node drops or reorders.
- Listener.NothingLostOrReordered: assumes that signatures decode to 64 bytes, since a shorter transaction id does not serialise and is dropped.
- IxCompiler.IxCompiler.Compile: does not model changing the price of one compiler (set_cu_price) between calls.
- OperationManager.OperationManager.ProcessOperation: does not model failing balance checks, which repeat the loop without other effect, nor reads with which the loop runs forever.
- ExecutorOnChain.WatermarkMeansDone: does not promise that an operation stopped by an error or a panic is ever acknowledged; the code then sends no final acknowledgement.
- SuspensionGate.DueCheckReads: does not speak of a task whose balance request fails, because the code then lets a due check be skipped.
- Liveness of the suspension gate: every waiter is woken by its poller, but not that the poller ever reads enough.
- Transaction resending, the finalizer loop, the RPC pool, round robin and lookup-table management.
- Protocol extensions, dynamic loading, the sample program, command lines, deployment and configuration files.

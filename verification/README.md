# Trusted Group: a verified model of its hard core

The system moves assets between a multisig group of nodes and smart-contract
chains. Nodes turn outputs into numbered events, sign them with a threshold
scheme and hand them to a chain; contracts there mint, run calls and emit logs;
nodes read the logs, debit an account and pay out. This project models that
loop in Dafny and proves what holds of it in every run.

| file | what it holds |
|---|---|
| `Bytes.dfy`, `Sums.dfy`, `Modular.dfy` | big-endian integers, totals of maps, congruences and 256-bit words |
| `Event.dfy` | the Go event codec |
| `EventStore.dfy`, `SigningNetwork.dfy`, `Signer.dfy` | one node's event store, the network of all nodes, the signing loops |
| `Agreement.dfy`, `Lifecycle.dfy`, `Recovery.dfy` | agreement by quorum intersection; where an event can be; when its signature is recovered |
| `Ledger.dfy`, `LedgerSafety.dfy`, `Machine.dfy`, `Payouts.dfy` | credits, debits and payouts under crashes |
| `ContractLog.dfy`, `LogScan.dfy`, `LogPull.dfy`, `Queue.dfy` | the log readers of the two engines and the byte-keyed queues |
| `NonceWindow.dfy`, `EosToken.dfy` | the EOS proxy's nonce window and the EOS token |
| `RegistryCodec.dfy`, `CodecAgreement.dfy` | the contract's parser and printer, and their agreement with the Go codec |
| `UserRun.dfy`, `AssetToken.dfy`, `Registry.dfy`, `RegistryContract.dfy`, `RegistrySafety.dfy`, `RegistryEffects.dfy`, `StorageReentry.dfy` | the quorum registry and the contracts around it: what its runs keep, what each call does |
| `CurveG2.dfy`, `HashToPoint.dfy` | BN254 field arithmetic |

`dafny verify dfyconfig.toml` checks the whole project.

## Assumptions

- A database transaction is atomic, and a read sees a committed state.
- A partial signature verifies just when its member made it; on the messages of a
  run, partials are unique to member and message. Partials are 66 bytes long, full
  signatures 64, and a full signature exists just when a threshold of members signed
  the message. Such schemes exist (`Agreement.IdealSchemeExists`).
- Keccak and contract addresses do not collide, as on the values used: hashing goes
  into an unbounded range, where such functions exist
  (`RegistrySafety.IdealEnvExists`). A hashed user key is never below 2^128, where asset
  ids are.
- The encoder's `WriteInt` is two big-endian bytes and its `WriteInteger` a
  two-byte length with the minimal big-endian digits, as the contract parser reads
  them. A UUID is its sixteen bytes.
- Every address an extra names as storage is a `Storage` contract, which makes no
  further calls; the registry does not check it, and what one that does call can
  break is `StorageReentry.CallingStorageBreaks`. What it returns and whether it takes
  a write is arbitrary, call by call.
- A trace id determines process and nonce, and outputs carry positive time stamps.
- The final part of a chain's history does not change, and an EOS action found final
  when it is parsed is part of it. Logs are numbered consecutively.
- An EOS symbol is valid when it has one to seven capital letters and a precision
  of at most eighteen; amounts are bounded by 2^62 - 1.
- The BN254 modulus obeys Fermat's theorem (`HashToPoint.Fermat`), and the modular
  power precompile succeeds.

## Findings

- Agreement needs exactly 2 * threshold > members + faulty (`Agreement.AgreementExactly`).
- `uint256ToVarBytes` drops the top byte of amounts of 2^248 or more that are not
  multiples of 2^248 (`CodecAgreement.OutboundExactly`).
- An extra that lists more calls than its count reverts the whole event if all calls
  up to one past the count succeed, since the counter of `run` is unsigned
  (`UserRun.RevertsExactly`, `UserRun.OneTooManyReverts`).
- The overlap of scan windows covers exactly one block added between the two
  requests of a round (`LogScan.OverlapExactly`).
- The EOS nonce counter wraps when the last of all 64-bit nonces passes the window;
  every nonce then passes again (`NonceWindow.LastNonce`, `NonceWindow.CounterWraps`).
- A replay of outputs in another order records an output under another one's credit
  (`LedgerSafety.ReplayInAnotherOrder`, `LedgerSafety.MiscreditedRun`), and a replay that
  goes back past the registration of a process credits what was dropped before it
  (`LedgerSafety.ReplayExactly`, `LedgerSafety.DroppedThenCredited`).
- The supply equation of the EOS token is off by exactly what `retireex` actions sent
  from outside by the contract's own account took (`EosToken.SupplyAccounted`,
  `EosToken.OutsideRetireExBreaks`).
- A pull whose stored offset leads into logs that are not final does nothing, even if
  the log at the index is final (`LogPull.Engine.PullContractEvents`,
  `LogPull.StalledRun`).
- `sendMixinTransaction` reads balance and nonce before it calls the storage contract an
  extra names. Calls made there keep the registry's invariant exactly if they leave
  the outbound counter and the asset's custody alone (`StorageReentry.ReentryExactly`);
  others repeat a nonce or break custody (`StorageReentry.CallingStorageBreaks`,
  `StorageReentry.BrokenRun`).
- A debit whose payout could not be built is lost once a later payout of its process
  stores its offset, and exactly then (`Payouts.PayableExactly`, `Payouts.LostRun`).
- Some events decode and cannot be encoded again; on these, if their process is known,
  the receive loop panics, and otherwise only on messages that are too short
  (`Signer.StopsExactly`, `Signer.StoppingMessage`).

## Model

| member | source | states |
|---|---|---|
| `EventCodec.Encode` | mvm/encoding/event.go:37-60 | the append-only encoder yields the field-by-field encoding exactly on the events it does not panic on |
| `EventCodec.DecodeEvent` | mvm/encoding/event.go:62-121 | the cursor-based decoder is the parser `Parsed`, with the same error cases, and ignores trailing bytes |
| `EventCodec.DecodeUndoesEncode` | mvm/encoding/event.go:37-121 | decoding an encoded event, whatever follows it, returns the event and leaves exactly what follows |
| `EventCodec.EncodeInjective` | mvm/encoding/event.go:37-60 | no encoding is a prefix of another event's encoding |
| `EventStore.ChunksJoin` | mvm/store/event.go:96-138 | a stored list of 66-byte partials reads back exactly |
| `EventStore.JoinLength` | mvm/store/event.go:111-133 | a list of partials is never 64 bytes long, so never taken for a full signature |
| `EventStore.Node.WritePendingGroupEventAndNonce` | mvm/store/event.go:27-65 | admits an event exactly if its identifier is new and its nonce is the process's next; pending unless already signed |
| `EventStore.Node.ReadGroupEventSignatures` | mvm/store/event.go:96-119 | the full signature or the stored partials |
| `EventStore.Node.WritePendingGroupEventSignatures` | mvm/store/event.go:121-138 | stores the joined partials unless the cell is full; panics exactly on a partial of another length |
| `EventStore.Node.WriteSignedGroupEventAndExpirePending` | mvm/store/event.go:140-165 | moves an event from pending to signed once |
| `EventStore.Node.ExpireGroupEvents` | mvm/store/event.go:196-222 | removes one process's events from the signed queue; panics exactly if they are of several |
| `EventStore.Node.RemoveInvalidPartials` | mvm/machine/signer.go:174-184 | keeps the partials that verify, in order |
| `EventStore.Node.CheckSignedWith` | mvm/machine/signer.go:206-213 | membership |
| `EventStore.Node.AppendPendingGroupEventSignature` | mvm/machine/signer.go:145-172 | collects below the threshold, recovers and moves the event at it |
| `Signer.ReceiveGroupMessage` | mvm/machine/signer.go:70-143 | one received message has exactly the effect of the network's receive step on the decoded event, undecodable bytes have none, and it panics exactly on the messages of `Stops` |
| `Signer.StopsExactly` | mvm/machine/signer.go:78-95 | those are messages shorter than their time stamp, and events of a known process with an extra within its limit and more than 64 members or a threshold above their number |
| `Signer.StoppingMessage` | mvm/machine/signer.go:93-95 | for each process a node knows there is such a message |
| `Signer.SignGroupEvents` | mvm/machine/signer.go:28-68 | signs each due event, queues it for the others with its partial and the time, and takes in its own partial, in list order, up to the first one that carries a signature or cannot be encoded |
| `Signer.SigningIsSteps` | mvm/machine/signer.go:45-65 | signing a local event is two steps of the network model |
| `Signer.DueExactly` | mvm/machine/signer.go:38-43 | the events signed in a round are those listed as due, in list order |
| `Signer.RoundIsSteps` | mvm/machine/signer.go:28-68 | a whole round is a run of the network in which each due event is signed by the member and only its own store changes |
| `Signer.PacketReceived` | mvm/machine/signer.go:56-95 | what is queued, received by another node, is that event with that partial |
| `SigningNetwork.RunKeepsInv` | mvm/machine/signer.go:28-172 | in every run every honest store holds only genuine, distinct partials and certified full signatures, and honest members sign only their own event of a nonce; the scheme need be ideal on the run's messages only |
| `SigningNetwork.AppendedPartials` | mvm/machine/signer.go:157-169 | the partials counted against the threshold are at most the members that signed this very message |
| `Agreement.AgreementHolds` | mvm/machine/signer.go:28-172 | no run yields full signatures on two contents for one process and nonce, if 2 * threshold > members + faulty |
| `Agreement.ConfiguredThresholdAgrees` | mvm/config/config.example.toml:8-9 | the same for threshold n*2/3+1 and fewer than n/3 faulty |
| `Agreement.StoresAgree` | mvm/store/event.go:140-165 | two honest stores never hold different full signatures or signed events for one nonce |
| `Agreement.DisagreementBelow` | mvm/machine/signer.go:28-172 | at or below the bound there is, for any two new events of one nonce, a run that certifies both and mentions no other message |
| `Agreement.AgreementExactly` | mvm/machine/signer.go:28-172 | agreement in all runs of all ideal schemes holds if and only if 2 * threshold > members + faulty |
| `Agreement.IdealSchemeExists` | mvm/machine/signer.go:157-169 | a scheme ideal on given messages exists for any size, threshold and message set that 66 bytes can tell apart |
| `Lifecycle.CellsOnlyAdvance` | mvm/store/event.go:96-165 | in every member's store, honest or not, between any two points of a run a signature cell only moves none, partials, full; a full one never changes; a partial one reads back exactly |
| `Lifecycle.EntersOnce` | mvm/store/event.go:140-165 | no event enters any member's signed queue twice, and those that did are those with a full cell |
| `Lifecycle.QueueExactly` | mvm/store/event.go:140-222 | in every run, in every member's store, an event is in the signed queue if and only if its cell is full and no expiry of its key was run since, and it carries the signature in the cell |
| `Lifecycle.ExactlyOnePlace` | mvm/store/event.go:27-65 | given agreed content, each local event is in exactly one of pending, signed and expired, where expired means that an expiry step removed it |
| `Recovery.RecoveryExactly` | mvm/machine/signer.go:145-172 | in every run in which a member is told no other content for the nonce, in whatever order messages come: its cell is the full signature if and only if it received partials of a threshold of members or the full signature; until then it holds exactly the partials received, each once; a full one is queued with its signature until it expires |
| `Recovery.ThresholdRecovers` | mvm/machine/signer.go:157-171 | so the partials of any set of members as large as the threshold are enough, whatever the others do |
| `Recovery.AdmissionExactly` | mvm/store/event.go:27-65 | in every run the nonces admitted are gap-free with one identifier each, and a new output of a registered process with its next nonce is admitted, uses up both, and waits as pending unless it is signed already; any other is refused |
| `LedgerSafety.PayoutsBounded` | mvm/machine/process.go:71-151 | in every run, whatever is replayed and in whatever interleaving: payouts, counted once per trace id, are at most debits, which are at most credits; each balance is credits minus debits; the insufficient-balance panic is unreachable |
| `LedgerSafety.PayoutsAreFinal` | mvm/machine/process.go:128-151 | a payout once made keeps its asset and amount in every continuation |
| `Payouts.LostForGood` | mvm/machine/process.go:71-126 | a debit not paid and left behind by the stored offset is never paid, by any steps, restarts included |
| `Payouts.PayableExactly` | mvm/machine/process.go:71-126 | a debited and unpaid event, between two events of the loop, can still be paid if and only if the stored offset has not passed it |
| `Payouts.LostRun` | mvm/machine/process.go:115-123 | a run in which the payout of one event fails, that of the next succeeds, and the first is lost |
| `LedgerSafety.DebitBooks` | mvm/store/account.go:38-68 | a debit that was checked is covered when it is written, whatever other processes did in between |
| `LedgerSafety.AssignGapless` | mvm/machine/machine.go:168-216 | without crashes nonces are gap-free, each of one deposit of its process, and no identifier has two |
| `LedgerSafety.AssignIdentifiers` | mvm/machine/machine.go:188-193 | an identifier is recorded exactly when a deposit for a process registered before it carries it |
| `LedgerSafety.AssignFirst` | mvm/store/event.go:27-45 | of the accepted deposits that share an identifier the first gets the nonce next in line, and keeps it |
| `LedgerSafety.AssignEarns` | mvm/machine/machine.go:205-209 | the credits of those nonces add up to what the first accepted deposit of each identifier brings |
| `LedgerSafety.ExactlyOnce` | mvm/machine/machine.go:108-216 | under any crashes and replays that go back no further than they may, the node's processes and nonces are those of a node that never stopped, each nonce with its deposit's credit, and it never panics |
| `LedgerSafety.ResumingInPlace` | mvm/machine/machine.go:168-216 | a crash at any point, followed by a replay of the output it stopped at and what follows, meets that proviso |
| `LedgerSafety.CreditsAreOutputs` | mvm/store/account.go:38-68 | under the same proviso balance plus debits equals what the outputs bring, but for one deposit between its two writes |
| `LedgerSafety.ReplayExactly` | mvm/machine/machine.go:168-193 | a replay from a position passes over all outputs dealt with unchanged if and only if none of them was dropped for want of a process that exists by now |
| `LedgerSafety.DroppedThenCredited` | mvm/machine/machine.go:172-175 | a run in which a deposit dropped before its process existed is credited by a replay |
| `LedgerSafety.ReplayInAnotherOrder` | mvm/machine/machine.go:193-214 | stopped between snapshot and nonce and replayed any outputs, the node records the first deposit that gets a nonce of the process under the credit of the one it stopped at; the two agree if and only if they bring the same |
| `LedgerSafety.MiscreditedRun` | mvm/machine/machine.go:205-214 | a run that gets there and records a deposit under another one's credit |
| `LedgerSafety.CreditsAreFinal` | mvm/store/account.go:38-48 | a credit once written is never changed, by any steps over any outputs |
| `Machine.Machine.CheckAccountSnapshot` | mvm/store/account.go:16-36 | already debited, or covered by the balance |
| `Machine.Machine.WriteAccountSnapshot` | mvm/store/account.go:38-68 | writes balance and snapshot once per key; panics exactly on a new debit the balance does not cover |
| `Machine.Machine.AddProcess` | mvm/machine/machine.go:108-166 | adds a process exactly if sender, fee asset, fee amount, platform and address are in order and neither its identifier nor its address is taken; uninterrupted, a run of the ledger's steps |
| `Machine.Machine.WriteGroupEvent` | mvm/machine/machine.go:168-216 | uninterrupted, a run of the ledger's steps, after which an acceptable deposit has its nonce |
| `Machine.Machine.ReceiveEvents` | mvm/machine/process.go:71-126 | a round of the loop is a run of the ledger; of the events it reaches, those of the process, of a positive amount and not handled yet are debited and, if they can be delivered, paid as stored; nothing else is; the offset is the last one delivered, and it stops only where the balance is short |
| `ContractLog.FirstWinsMeaning` | mvm/quorum/store.go:122-135 | the store has a key exactly when some log has it, with the earliest such log |
| `LogScan.ScanCovers` | mvm/quorum/engine.go:121-156 | with at most one block between the two requests, the store is the first-wins map of a log prefix that covers all blocks below the offset |
| `LogScan.NoLogMissed` | mvm/quorum/engine.go:121-156 | every event of such a block is stored under its key |
| `LogScan.RescanIsIdle` | mvm/quorum/store.go:122-135 | scanning covered logs again changes nothing |
| `LogScan.OverlapExactly` | mvm/quorum/engine.go:129-151 | every run covers what is below its offset if and only if at most one block is added between the requests |
| `LogScan.Engine.ScanOnce` | mvm/quorum/engine.go:124-155 | one round stores all logs found, keeps what was stored, moves the offset exactly when the chain is past the window, and keeps the coverage |
| `LogPull.PullIsPrefix` | mvm/eos/engine.go:471-582 | under any crashes and re-bases the store is the first-wins map of a log prefix at least as long as the stored index |
| `LogPull.HaltsOnlyWithoutOverlap` | mvm/eos/engine.go:429-456 | the wrong-id panic inside a batch is unreachable; it halts only on a node that serves nothing or starts past the index |
| `LogPull.PullAdvances` | mvm/eos/engine.go:429-582 | from every state of every run in which the engine is behind on an overlapping node, whatever its stored offset, unless that leads to logs that are not final: one pull takes the index on by a whole batch or to the last final log, sets the offset right, and all logs below the index are stored |
| `LogPull.Engine.AdjustOffset` | mvm/eos/engine.go:429-456 | the offset of the log at the index, or a panic exactly without actions or without overlap |
| `LogPull.Engine.ParseActions` | mvm/eos/engine.go:514-582 | takes in the final part of a batch that starts at the index, refuses any other unchanged, stops at the first action that is not final, and never panics |
| `LogPull.Engine.PullContractEvents` | mvm/eos/engine.go:471-512 | unless the stored offset leads into actions that are not final, on which it does nothing, it heals any stored offset: on an overlapping node it takes in the next batch and leaves the right offset, in at most two attempts |
| `LogPull.StalledRun` | mvm/eos/engine.go:471-512 | a run reaches the state in which a pull does nothing |
| `Queue.LessIsNumeric` | mvm/quorum/store.go:218-222 | among byte strings of one length lexicographic order is the order of the numbers |
| `Queue.KeyOrder` | mvm/quorum/store.go:122-124 | keys of one address are ordered as their nonces |
| `Queue.WriteIsNumeric` | mvm/quorum/store.go:122-135 | queueing changes the numeric map of its own address only |
| `Queue.WrittenIsNumeric` | mvm/quorum/store.go:167-186 | queueing a list does to the numeric map of its address what queueing one by one does, and nothing to others |
| `Queue.QueueAllMeaning` | mvm/quorum/store.go:167-186 | a queued nonce keeps its event, and a free one gets the first listed event |
| `Queue.Store.ListEvents` | mvm/quorum/store.go:137-165 | iteration over ordered keys returns the first `limit` events from the offset on, by increasing nonce |
| `Queue.ListingIsUnique` | mvm/quorum/store.go:188-216 | there is only one such list |
| `Queue.Store.WriteGroupEvents` | mvm/quorum/store.go:167-186 | queues a list at its address, each event unless its nonce is taken, and leaves other addresses as they were |
| `NonceWindow.Contract.CheckNonce` | mvm/eos/contracts/mixinproxy/mixinproxy.go:91-122 | accepts exactly a nonce at or above the counter without a row; then counts up over rows and drops lower ones |
| `NonceWindow.AdvanceStops` | mvm/eos/contracts/mixinproxy/mixinproxy.go:100-109 | counting stops at the first nonce without a row, and wraps to zero exactly if there is none |
| `NonceWindow.Contract.OnEvent` | mvm/eos/contracts/mixinproxy/actions.go:39-52 | the step of the state machine, undone if anything aborts |
| `NonceWindow.Contract.OnErrorEvent` | mvm/eos/contracts/mixinproxy/actions.go:55-80 | the same for error events |
| `NonceWindow.Contract.Exec` | mvm/eos/contracts/mixinproxy/actions.go:83-92 | the same for handling the lowest error event |
| `NonceWindow.WindowIsAcceptedSet` | mvm/eos/contracts/mixinproxy/mixinproxy.go:91-130 | until all nonces are used, the counter and the table are the set of accepted nonces, and a nonce passes if and only if it is at least one and not accepted |
| `NonceWindow.HandledOnce` | mvm/eos/contracts/mixinproxy/actions.go:39-92 | each accepted nonce is handled at most once, and is handled unless it waits as an error event |
| `NonceWindow.OnlyVerified` | mvm/eos/contracts/mixinproxy/actions.go:39-92 | in every run each accepted event is that of an event or error action with verified signatures and the right process, and each handled one that of such an event action whose handler succeeded, or of an error action followed by an authorised `exec` whose handler succeeded |
| `NonceWindow.EventExactly` | mvm/eos/contracts/mixinproxy/actions.go:39-80 | after every run a verified event of the process with a nonce from one on that was not accepted yet is accepted, and handled or kept as an error event; any other, or one whose handler fails, changes nothing |
| `NonceWindow.ExecExactly` | mvm/eos/contracts/mixinproxy/actions.go:83-92 | an authorised `exec` whose handler succeeds handles the waiting event of the lowest nonce, once; any other changes nothing |
| `NonceWindow.NeverStale` | mvm/eos/contracts/mixinproxy/mixinproxy.go:111-121 | the stale-removal loop never removes a row |
| `NonceWindow.LastNonce` | mvm/eos/contracts/mixinproxy/mixinproxy.go:416-429 | taking the last nonce through the window lets all pass again; taking it as an error event lets none |
| `NonceWindow.CounterWraps` | mvm/eos/contracts/mixinproxy/mixinproxy.go:100-109 | the run of all nonces in order reaches that state |
| `EosToken.Token.Transfer` | mvm/eos/contracts/mixinproxy/token/token.go:140-205 | moves the amount, or for a bound receiver takes it, queues its retirement and sends the transfer request |
| `EosToken.Token.RetireEx` | mvm/eos/contracts/mixinproxy/token/token.go:119-137 | lowers the supply only, under the contract's own authority |
| `EosToken.Token.RunQueued` | mvm/eos/contracts/mixinproxy/token/token.go:182-189 | a queued retirement lowers the supply and never fails |
| `EosToken.Token.Issue` | mvm/eos/contracts/mixinproxy/token/token.go:78-99 | raises supply and the issuer's balance within the maximum |
| `EosToken.TransferExactly` | mvm/eos/contracts/mixinproxy/token/token.go:140-205 | a transfer succeeds if and only if the sender signs, differs from the receiver, which is an account, and holds the amount of an existing token; it then lowers the sender's balance, and either raises the receiver's or, to a bound receiver from any but the master account, queues the retirement and sends the request; no other balance changes |
| `EosToken.IssueExactly` | mvm/eos/contracts/mixinproxy/token/token.go:78-99 | succeeds exactly for the issuer to itself within the maximum, and raises its balance and the supply |
| `EosToken.RetireExactly` | mvm/eos/contracts/mixinproxy/token/token.go:102-116 | succeeds exactly for an issuer who holds the amount, and lowers its balance and the supply |
| `EosToken.RetireExExactly` | mvm/eos/contracts/mixinproxy/token/token.go:119-137 | succeeds exactly under the contract's own authority, and lowers the supply and no balance |
| `EosToken.QueuedExactly` | mvm/eos/contracts/mixinproxy/token/token.go:182-189 | the first queued retirement leaves the queue and lowers the supply by its amount |
| `EosToken.CreateExactly` | mvm/eos/contracts/mixinproxy/token/token.go:59-75 | succeeds exactly under the contract's own authority for a new code and a positive valid maximum |
| `EosToken.OpenExactly` | mvm/eos/contracts/mixinproxy/token/token.go:208-223 | adds an empty row of an existing token, and changes no balance |
| `EosToken.CloseExactly` | mvm/eos/contracts/mixinproxy/token/token.go:226-233 | removes an empty row, and changes no balance |
| `EosToken.TransactionCompletes` | mvm/eos/contracts/mixinproxy/token/token.go:140-193 | from every state of every run the queued retirements run and the transaction commits, with balances and requests as they were and supplies lower by what was queued |
| `EosToken.FailureUndoesAll` | mvm/eos/contracts/mixinproxy/token/token.go:11-15 | a failing action, or a failure elsewhere, takes the tables back to the last commit |
| `EosToken.ApplyKeepsInv` | mvm/eos/contracts/mixinproxy/token/token.go:59-254 | every action keeps supply plus what was retired from outside equal to holdings plus queued amounts |
| `EosToken.SupplyAccounted` | mvm/eos/contracts/mixinproxy/token/token.go:59-193 | in every run that equation holds, so supply is holdings plus queued amounts if and only if nothing was retired from outside |
| `EosToken.SupplyConserved` | mvm/eos/contracts/mixinproxy/token/token.go:59-193 | in every run where `retireex` arises only from transfers, supply is holdings plus queued amounts, between zero and the maximum |
| `EosToken.CommittedSupplyIsHeld` | mvm/eos/contracts/mixinproxy/token/token.go:59-254 | between transactions nothing is queued: supply plus what was retired from outside is the sum of balances |
| `EosToken.QueuedNeverFails` | mvm/eos/contracts/mixinproxy/token/token.go:119-137 | no queued retirement is ever refused |
| `EosToken.OutsideRetireExBreaks` | mvm/eos/contracts/mixinproxy/token/token.go:119-137 | a run of two actions in which an outside `retireex` leaves a negative supply and no holdings |
| `CodecAgreement.ContractReadsGoEvent` | mvm/quorum/registry/contracts/Registry.sol:161-279 | the contract recovers every field of a signed Go event, uses up all bytes, and rebuilds exactly the message the members signed |
| `CodecAgreement.GoReadsSignedMessage` | mvm/quorum/registry/contracts/Registry.sol:161-191 | of any bytes the contract accepts, the Go decoder reads the same fields from the signed message |
| `RegistryCodec.Uint256ToVarBytes` | mvm/quorum/registry/contracts/libs/Integer.sol:40-56 | the loop computes the digits from the first non-zero byte after the top one |
| `CodecAgreement.VarBytesValue` | mvm/quorum/registry/contracts/libs/Integer.sol:40-56 | the printed amount is the amount, less its top byte unless the rest is zero |
| `RegistryCodec.BuildMixinTransaction` | mvm/quorum/registry/contracts/Registry.sol:132-158 | the concatenation of the outbound fields, the extra cut to 68 bytes if it names storage, and the write that hands the rest to it |
| `RegistryCodec.CutKeepsReference` | mvm/quorum/registry/contracts/Registry.sol:139-144 | what is sent still names the place its data went to |
| `CodecAgreement.OutboundExactly` | mvm/quorum/registry/contracts/Registry.sol:132-158 | the Go decoder returns what was sent if and only if the extra is shorter than 2^16 and the amount is below 2^248 or a multiple of it |
| `CodecAgreement.ReplyReachesSender` | mvm/quorum/registry/contracts/Registry.sol:248-258 | a payment to the user an event created carries that event's members and threshold |
| `UserRun.Run` | mvm/quorum/registry/contracts/User.sol:24-50 | the loop is the interpreter of the call list |
| `UserRun.InterpretsExactly` | mvm/quorum/registry/contracts/User.sol:29-36 | calls are read exactly from an extra of at least 28 bytes with a count of one to sixteen |
| `UserRun.LoopBounds` | mvm/quorum/registry/contracts/User.sol:39-84 | at most count + 1 entries, each of at least 22 bytes; all calls but the last succeed |
| `UserRun.RevertsExactly` | mvm/quorum/registry/contracts/User.sol:33-47 | an extra reverts if and only if it lists more complete entries than its count and all calls up to one past the count succeed |
| `UserRun.CanRevertExactly` | mvm/quorum/registry/contracts/User.sol:33-47 | some outcome of the calls reverts it if and only if it lists more complete entries than its count |
| `UserRun.OneTooManyReverts` | mvm/quorum/registry/contracts/User.sol:39-47 | an extra of two entries under a count of one that reverts when both succeed |
| `UserRun.RunOfRequests` | mvm/quorum/registry/contracts/User.sol:24-84 | a list that encodes exactly its count of calls makes them in order, with their inputs, up to and including the first failure |
| `AssetToken.Asset.Transfer` | mvm/quorum/registry/contracts/Asset.sol:45-53 | checked subtraction then addition, undone if either fails; keeps supply equal to the sum of balances |
| `AssetToken.Asset.TransferFrom` | mvm/quorum/registry/contracts/Asset.sol:55-63 | the same against an allowance |
| `AssetToken.Asset.Mint` | mvm/quorum/registry/contracts/Asset.sol:139-143 | by the registry only |
| `AssetToken.Asset.Burn` | mvm/quorum/registry/contracts/Asset.sol:145-149 | by the registry only |
| `AssetToken.MovedSound` | mvm/quorum/registry/contracts/Asset.sol:45-53 | a transfer keeps supply equal to the sum of balances, and fails exactly if the sender has too little |
| `AssetToken.MovedExactly` | mvm/quorum/registry/contracts/Asset.sol:45-53 | a transfer takes the value from the sender, gives it to the receiver and touches no other balance and no allowance |
| `AssetToken.MovedFromExactly` | mvm/quorum/registry/contracts/Asset.sol:55-63 | one for another uses up that much of the caller's allowance and no other, and fails exactly for lack of balance or allowance |
| `AssetToken.ApprovedExactly` | mvm/quorum/registry/contracts/Asset.sol:65-81 | an approval sets the allowance of that owner for that spender only, and is refused exactly from one positive value to another |
| `AssetToken.MintedExactly` | mvm/quorum/registry/contracts/Asset.sol:139-143 | raises one balance and the supply |
| `AssetToken.BurnedExactly` | mvm/quorum/registry/contracts/Asset.sol:145-149 | lowers one balance and the supply |
| `RegistryContract.Contract.Iterate` | mvm/quorum/registry/contracts/Registry.sol:61-77 | replaces the key only while halted and with both signatures |
| `RegistryContract.Contract.Halt` | mvm/quorum/registry/contracts/Registry.sol:79-88 | toggles on a signature over the inbound count |
| `RegistryContract.Contract.SendMixinTransaction` | mvm/quorum/registry/contracts/Registry.sol:112-129 | logs the next outbound nonce and takes the amount from custody |
| `RegistryContract.Contract.Claim` | mvm/quorum/registry/contracts/Registry.sol:90-96 | burn and payout, undone together |
| `RegistryContract.Contract.Burn` | mvm/quorum/registry/contracts/Registry.sol:98-110 | pays out to user contracts, does nothing for others |
| `RegistryContract.Contract.GetOrCreateAssetContract` | mvm/quorum/registry/contracts/Factory.sol:17-37 | the known contract of an id, or a new one |
| `RegistryContract.Contract.GetOrCreateUserContract` | mvm/quorum/registry/contracts/Factory.sol:39-59 | the known contract of a member block, or a new one |
| `RegistryContract.Contract.AcceptEvent` | mvm/quorum/registry/contracts/Registry.sol:161-204 | `mixin` up to the call of the user contract, undone as a whole on any failure; keeps the registry's invariant, as do its other public methods |
| `RegistrySafety.BurnAndSendOk` | mvm/quorum/registry/contracts/Registry.sol:107-129 | the custody subtraction never underflows: a payout fails only for a short balance, a used-up counter or a refused storage write |
| `RegistrySafety.TransferOk` | mvm/quorum/registry/contracts/Asset.sol:111-127 | a transfer fails exactly for the sender's balance or for what refuses the payout to a user contract |
| `RegistrySafety.ExecOk` | mvm/quorum/registry/contracts/Registry.sol:61-206 | every call, with all calls nested in it, keeps the invariant, also while amounts are burned and not yet sent |
| `RegistrySafety.CustodyConserved` | mvm/quorum/registry/contracts/Registry.sol:90-129 | after any transactions, nested calls included, custody equals supply equals the sum of balances for every asset, and is the events' amounts less the transactions' amounts |
| `RegistryEffects.AcceptExactly` | mvm/quorum/registry/contracts/Registry.sol:161-204 | in every state that keeps the invariant an event is accepted if and only if the registry is not halted, the bytes parse, the nonce is next, the group signed them, a storage place the input names can be read, and custody stays within a word; then the inbound count, the log, and the user's holding, the supply and the custody of that asset grow by it, and no other holding, supply, custody or allowance changes |
| `RegistryEffects.PlainEventReturns` | mvm/quorum/registry/contracts/User.sol:24-37 | an accepted event that lists no calls fails exactly if the outbound counter is used up; otherwise its amount is logged in and, with the next outbound nonce, out to the same members, and all holdings, supplies and custody are as before |
| `RegistryEffects.InterpretedEventSettles` | mvm/quorum/registry/contracts/User.sol:33-50 | an accepted event that lists calls ends, if the user then holds the amount and the outbound counter is not used up, with the payout of the amount to the event's members as the last entry; if not, it still succeeds with what the calls left |
| `RegistryEffects.FirstProcessMaySpend` | mvm/quorum/registry/contracts/User.sol:66-75 | when the first process is called it may spend the event's amount of the user's tokens, and nothing else has changed |
| `RegistryEffects.ProcessesInOrder` | mvm/quorum/registry/contracts/User.sol:39-50 | each process acts in the world its predecessor left |
| `RegistryEffects.ProcessesStop` | mvm/quorum/registry/contracts/User.sol:39-84 | an entry cut short, or a failing process, ends the list with what was done so far |
| `RegistryEffects.TransferExactly` | mvm/quorum/registry/contracts/Asset.sol:111-127 | a transfer succeeds if and only if the sender holds the value and, to a user contract, the payout can be made; to a user contract the value is burned and paid out to its members, to anyone else it is held there; nothing else changes |
| `RegistryEffects.TransferFromExactly` | mvm/quorum/registry/contracts/Asset.sol:129-137 | the same on another's tokens, within the caller's allowance and using it up |
| `RegistryEffects.ApproveExactly` | mvm/quorum/registry/contracts/Asset.sol:65-81 | sets one allowance and changes nothing else |
| `RegistryEffects.ClaimExactly` | mvm/quorum/registry/contracts/Registry.sol:90-96 | succeeds exactly for a user contract that holds the amount of an asset while outbound nonces last; its tokens are burned and paid out to its members |
| `RegistryEffects.BurnExactly` | mvm/quorum/registry/contracts/Registry.sol:98-129 | called by an asset contract, it pays a user contract that holds the amount out, and does nothing for other holders |
| `RegistryEffects.IterateExactly` | mvm/quorum/registry/contracts/Registry.sol:61-77 | a key change of the right length is taken if and only if the registry is halted, the old group signed the new key with the first signature and the new group with the second; it replaces the key only |
| `RegistryEffects.HaltExactly` | mvm/quorum/registry/contracts/Registry.sol:79-88 | succeeds if and only if the group signed the tag with the inbound count; it turns the switch and changes nothing else, so that events are refused afterwards if it was not halted and key changes if it was |
| `RegistrySafety.HistoryIsLegal` | mvm/quorum/registry/contracts/Registry.sol:61-206 | inbound nonces are 0 .. INBOUND-1 in order, each event signed by the group key then in force over its nonce, asset, amount and time; outbound ones are 0 .. OUTBOUND-1 once each; nothing inbound while halted; each key installed while halted, its bytes signed by its predecessor and by itself |
| `RegistrySafety.HaltRepeats` | mvm/quorum/registry/contracts/Registry.sol:79-88 | a signature that toggled the halt toggles it again under the same group key and inbound count, and so undoes what it did |
| `RegistrySafety.HaltedStands` | mvm/quorum/registry/contracts/Registry.sol:161-174 | while halted the inbound count stands still |
| `StorageReentry.CallingStorageBreaks` | mvm/quorum/registry/contracts/Registry.sol:112-144 | a storage contract an extra names, if it holds the asset and transfers some while being written to, makes two transactions share a nonce and leaves custody above supply by what it transferred |
| `StorageReentry.ReentryExactly` | mvm/quorum/registry/contracts/Registry.sol:98-144 | for every payout and every list of calls made during the storage write, the registry's invariant holds afterwards if and only if the calls left the outbound counter and the asset's custody as they were |
| `StorageReentry.BrokenRun` | mvm/quorum/registry/contracts/Registry.sol:112-206 | from a fresh registry one event leads to a state where such a payout breaks the invariant |
| `StorageReentry.QuietStorage` | mvm/quorum/registry/contracts/Storage.sol:11-15 | a storage contract that makes no calls gives the transition used everywhere else |
| `RegistrySafety.IdealEnvExists` | mvm/quorum/registry/contracts/Factory.sol:39-48 | keys and addresses without collisions exist, for any way of checking signatures |
| `RegistrySafety.RunRevertsAsLoop` | mvm/quorum/registry/contracts/User.sol:39-47 | the registry's run of an event reverts exactly when the interpreter's counter underflows |
| `CurveG2.IsOnCurveG2` | mvm/quorum/contracts/bls.sol:296-341 | true if and only if y^2 = x^3 + b in the extension field, for any x and for y whose doubling and negation do not wrap, reduced ones among them |
| `CurveG2.IsValidPublicKey` | mvm/quorum/contracts/bls.sol:157-171 | true if and only if all coordinates are reduced and the point is on the twist |
| `CurveG2.CubeNeverWraps` | mvm/quorum/contracts/bls.sol:306-317 | no sum of the cube reaches 256 bits and no difference goes below zero |
| `CurveG2.SquareNeverWraps` | mvm/quorum/contracts/bls.sol:331-336 | the same for the square, for y that are not too large |
| `CurveG2.SquareExactly` | mvm/quorum/contracts/bls.sol:331-336 | on any words the check squares y rightly if and only if (2 * y0 < 2^256 or N divides y1) and (y1 <= N or N divides y0 + y1) |
| `CurveG2.UnreducedRefused` | mvm/quorum/contracts/bls.sol:331-336 | a point of the twist that is refused when either coordinate of its y is written with a larger word |
| `CurveG2.TwistConstant` | mvm/quorum/contracts/bls.sol:319-329 | the constant times 9 + i is 3, as section "Definition of the groups" of EIP-197 defines it |
| `HashToPoint.Sqrt` | mvm/quorum/registry/contracts/libs/BLS.sol:83-118 | finds a root if and only if there is one |
| `HashToPoint.MapToPoint` | mvm/quorum/registry/contracts/libs/BLS.sol:61-81 | ends, with a point of the curve at the first x from the hash on, going round the field, that has one |

## Left out

- RPC, HTTP, messenger, database and command-line code: no logic of its own; the database appears as an atomic map.
- Pairing, BLS and ECDSA internals: abstract predicates under the assumptions above.
- Sleeps, the hourly resend and the repeated retry of a pull while a node stays behind: timing only.
- Value flow of the EOS event handler, bridge withdrawals, collectible payouts and the distinct-signer question of the EOS signature checks: what one would want to prove does not hold of the code as written.
- The older contracts `registry.sol`, `mixin.sol`, `vault.sol` and the C++ contracts: variants of what is here.
- The byte-array assembly of `Bytes.sol`: slices and concatenation are its specification.
- EventStore.Node.ExpireGroupEvents: the cost and the process credit it is taken from are not modelled.
- Machine.Machine.WriteGroupEvent: whether the extra, with the asset's metadata in front, is within its size is one flag of the output.
- RegistryContract.Contract.SendMixinTransaction: the write to a storage contract is accepted or not; it does not call back.
- Agreement.AgreementExactly: for fewer than 2^527 members; with more than that, 66 bytes cannot tell the partials on two messages apart.
- EosToken.SupplyAccounted: amounts are unbounded integers; the asset library's own overflow checks are not part of this model, and can only matter once outside retirements have driven a supply far below zero.
- RegistrySafety.ExecOk: nested calls are a tree of values, because a reverted call undoes all its effects; what called contracts do is otherwise arbitrary, within the registry's own contracts.
- LedgerSafety.ExactlyOnce: event nonces are unbounded; the 64-bit counter of a process is not wrapped.
- LedgerSafety.PayoutsBounded: covers payouts that carry the debited amount, which those of collectibles do not.
- LogPull.PullIsPrefix: an engine configured to skip early actions (`actionStartSequence` above zero) is not covered.
- LogPull.Engine.PullContractEvents: the node does not change during the call, though it may between the steps of `LogPull.PullIsPrefix`; what counts as final in a fetched batch is settled when it is fetched.
- LogScan.Engine.ScanOnce: logs that do not decode are not in the list it is given.
- Queue.Store.ListEvents: addresses of one queue have one length.
- SigningNetwork.RunKeepsInv: a recovered signature is the scheme's full signature of the message; the check after recovery that would panic otherwise is not a branch.

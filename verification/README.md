# UncCoin in Dafny

UncCoin is a proof-of-work chain whose blocks carry seven kinds of transactions, one of which runs
programs on a gas-metered stack machine, the UVM. This project models the parts of it whose
correctness shows only over whole runs, and proves what they keep.

**The UVM.** `Uvm` specifies one instruction and one run; `UvmMachine` is the machine with mutable
stack, memory, storage and balances and the loop over pc and gas, proved against it. `UvmTheorems`
shows that every run ends, that the gas limit only decides whether a run ends, and that every step
keeps words and funds in order. `UvmLaws` has the arithmetic on words, and `UvmPrograms` what short
programs with arithmetic, stack instructions and jumps compute under any gas limit.
`NftContract` and `Coinflip` prove the two programs the repository ships, for all inputs, with the
derived rules of `UvmRules`; `CoinflipText` is the coinflip as the machine reads it.

**The ledger.** `Ledger` specifies what each kind of transaction requires and changes; `ChainStates`
is the interpreter over dictionaries that are updated in place. `LedgerTheorems` has conservation of
money, write-once records, nonces and the authorization index. `LedgerAuthority` and `Consent` say who
can be made poorer and by whose signature, and what a signature covers. `History` has reveals after
the commitments they open, and `ContractStorage` who writes a contract's storage. `AccountLaws` says
which transactions are accepted and what each moves and records, account by account; `ChainRuns` says
what contract runs see of the chain, and what calls of a payment, of the token and of the coinflip do
to the ledger.

**Blocks, tree and mempool.** `Blocks` specifies block acceptance with its generic and its
reward-only path, and the replay of a branch from genesis; `BlockTheorems` proves whole branches, and
`BlockLaws` which blocks a chain accepts and what every stored block looks like.
`BlockTree` and `Mempool` specify ancestor walk, cache, reorganisation and selection; `ReorgOrder` has
the order in which transactions come back into the pool and go from it into a block.
`BlockAssembly` and `SpoiledBlocks` compare runs on balances that differ by the reward, and
`RewardBranches` has the states that branches of plain rewards lead to. `HashedBlocks` says which
blocks their hash tells apart, and `ReachedChains` puts the surprising inputs on chains. `Blockchains` is the chain
itself: a class whose methods change blocks, states, children, tip and mempool, whose stored states
may share dictionaries with their parents, and whose `Valid()` says that every stored state is what
its block makes of its parent's. `Orphans` and `Nodes` are the orphan pool with its worklist.
`Storage` and `Records` are saving and loading, of chains and of dictionaries; `StoredChain` puts the
two together.

**Proof of work.** `Decimals`, `Sha256Blocks` and `ProofOfWork` are the search that increments a
decimal counter in place and patches padded blocks; `Sha256Standard` says in the words of FIPS 180-4
what they compress. On a graphics card, `GpuSearch` has the windows
and the thread on two blocks, `SingleBlock` the thread on one, and `GpuRange` the race of the threads
and the range search.

**Keys, sync, assembler.** `Arithmetic` and `Rsa` are the hand-written primality test, inverse and
signatures; `FastSync` is the chunked chain transfer; `Assembler` is the two-pass assembler and its
agreement with the UVM, and `AssemblerLaws` what its programs say and which sources assemble.

## Assumptions

- Amounts are exact reals where the program uses `Decimal` with 28 digits. `Records` keeps the text
  form of amounts apart, as whatever the given codec reads back.
- Hashes, signature checks, addresses, difficulty and the SHA-256 compression function are arbitrary
  fixed functions, passed as parameters (`Crypto`, `Rules`, `Hash`). The signature check sees a key, a
  signature and the signed words, which leave out kind and payload in version 1, and blocks and
  transactions are hashed by these words with key and signature. The words are the fields, not the
  text they are joined into. Where `Orphans` and `Storage` need that distinct blocks carry distinct
  hashes, they require it; `HashedBlocks` says when it holds.
- Payloads are parsed and normalised: a missing or malformed text is the empty string, a missing or
  malformed number, hash or scope is `None`. Stripping and case are outside the model.
- The dictionaries of a state are objects and are shared as the program shares them; the
  dictionaries inside them are values.
- A thread on the graphics card touches shared memory twice, when it reads the best index and when it
  lowers it; what it does in between is one step of the race.
- The result of a proof-of-work search, the scheduler of the threads, the cancellation flag, the
  drawn witnesses and the handler's replies are parameters, so that the theorems hold for all of them.
- The mempool is that of the default mode, in which pending transactions live on the main tip.

## Where the code falls short of what one might expect

- A wallet can lose money without having signed or authorised anything: a transaction may carry its
  own program and name as receiver any address without a contract, and the program may move that
  address's coins (`ReceiverPaysWithoutConsent`, on a chain `WalletPays`). `OnlyInlineRunsCostStrangers` says exactly when, and
  `MoneyLeavesOnlyByConsent` excludes it by asking that runs name deployed contracts.
- A version-1 signature covers neither kind nor payload, and version 1 is accepted everywhere: it is
  valid for any other payload (`LegacySignaturesFitAnyPayload`), also for an authorization its wallet
  never made (`LegacyCopyIsNotSignedWordForWord`). From version 2 on, what is on record was signed
  (`AuthorizationsAreSignedWordForWord`, `MoneyLeavesOnlyByWord`).
- Blocks that differ only in the kind or payload of a version-1 transaction have the same words and
  so the same hash and proof of work. Whichever comes first is kept, the other is a duplicate, and
  nodes end up with different states (`OneHashTwoStates`). `WordsFixExactlyTypedBlocks` has the exact
  guard, and `TypedOrderDoesNotMatter` the order theorem under it.
- A coinflip between wallets, or about a request, that read as numbers can be deployed and never
  played (`NumericTextIsNeverPlayed`).
- A contract may start with storage that a run at its future address has left
  (`ContractMayStartWithStorage`); it starts with what is there (`DeploymentKeepsStorage`).
- A selection that applies to the tip need not give an acceptable block: fees are counted before the
  miner's reward is credited, and a contract run that stops for want of the miner's coins can go on
  once they are there (`RewardMaySpoilTheBlock`, on a chain `MiningFails`). `MinedBlockIsAccepted`
  names what has to be excluded, and `FirstStoppedRunDecides` what happens otherwise.
- `docs/contracts-and-uvm.md` speaks of authorizing deployed contracts; the code also accepts
  authorizations of addresses without a contract, and the model follows the code.
- A jump to a label with no instruction after it assembles and is out of bounds when taken
  (`JumpPastTheEnd`, `TrailingLabelIsOutOfBounds`).
- A text constant that reads as a number assembles as a key and is read as a number by the machine,
  which traps (`NumericTextIsMisread`, `OnlyPlainConstantsAreStable`).
- Past the last 64-bit nonce the native search reports a nonce that wrapped around
  (`FoundNonceIsTheWinner`), and a graphics-card window of step one becomes empty
  (`EmptyExactlyPastTheLastNonce`), so that the range search does not get on.
- A signature of a digest that is not below the modulus never verifies (`SignaturesVerify`).

## Model

| member | source | states |
|---|---|---|
| UvmMachine.ExecuteProgram | core/uvm.py:133-284 | the loop over pc and gas, with its mutable machine, reports exactly what the recursive specification of a run reports, for every program, context, limit, storage and balances: success, error, gas, stack, scratch memory, storage, net balance changes, transfer log, pc; UvmPrograms and ChainRuns say what single instructions do to a run |
| UvmMachine.Machine.ExecuteInstruction | core/uvm.py:351-596 | one instruction changes the machine as the specified step does and gives the same signal: go on, jump, trap or revert |
| UvmMachine.Machine.ExecuteBinary | core/uvm.py:387-429 | pops the top first, then computes on 256-bit words; zero divisors trap after both operands are gone |
| UvmMachine.Machine.ExecuteTransfer | core/uvm.py:514-546 | checks operands, amount, permission and the source's balance in that order and books exactly one transfer (on the chain: TransferDecides) |
| UvmMachine.Machine.ExecuteWallet | core/uvm.py:475-512 | reads of commitments, reveals and authorizations, with the error of each missing entry (on the chain: RequireAuthDecides, ReadCommitTells, ReadRevealTells) |
| UvmMachine.Machine.ExecuteKeyed | core/uvm.py:443-473 | scratch memory, storage, metadata and input cells |
| UvmMachine.Machine.ExecuteControl | core/uvm.py:578-596 | jump targets are checked before the condition is popped |
| UvmMachine.Machine.Push | core/uvm.py:665-668 | a full stack refuses a word; otherwise the word is reduced and put on top |
| UvmMachine.Machine.Pop | core/uvm.py:671-674 | an empty stack traps and stays empty, otherwise the top comes off |
| Uvm.GoingOnCosts | core/uvm.py:15-51 | only HALT and REVERT are free, and no run goes on after either, so going on always costs gas |
| Uvm.GasNeverGrows | core/uvm.py:184-284 | a run ends with at most the gas it had |
| UvmTheorems.RunUnderAnotherLimit | core/uvm.py:184-284 | from any point of any run, other gas gives the same end with the difference left over, or exhaustion exactly when it does not cover what was used |
| UvmTheorems.GasLimitIndependence | core/uvm.py:133-284 | an execution that does not exhaust its gas gives the same report under every limit that covers what it used, and exhausts every smaller limit without any balance change or transfer |
| UvmTheorems.ExhaustedKeepsNothing | core/uvm.py:198-208 | gas exhaustion always leaves zero gas |
| UvmTheorems.StepsBoundedByGas | core/uvm.py:184-284 | every run starts at most gas + 1 instructions, whatever the program |
| UvmTheorems.StepMovesFundsOnce | core/uvm.py:351-596 | an instruction leaves balances, recorded changes and transfer log alone, or books one permitted transfer the source can pay |
| UvmTheorems.SafeThroughout | core/uvm.py:184-284 | at every step of every run: at most 1024 words below 2^256, balance = initial balance + recorded change for every account, changes sum to zero, no negative balance, change = net of the log, every logged transfer permitted |
| UvmTheorems.FinalMemory | core/uvm.py:184-284 | the final memory of a run is the memory after its last step, so the step invariant holds of it |
| UvmTheorems.ExecutionIsSafe | core/uvm.py:514-546 | in the report of any execution, successful or not: changes sum to zero, equal the net of the transfers, never overdraw an account, every transfer is permitted, and gas used is within the limit |
| UvmTheorems.NonZeroKeepsSum | core/uvm.py:715-748 | dropping the zero entries from the reported changes does not change their sum |
| UvmTheorems.NoTransfersReported | core/uvm.py:514-546 | a program without TRANSFER_FROM reports no balance change and no transfer, however its run ends |
| UvmLaws.SubtractionUndoesAddition | core/uvm.py:403-406 | on words ADD and SUB undo each other and wrap around at 2^256 |
| UvmLaws.MultiplicationDistributes | core/uvm.py:407-408 | MUL is repeated ADD modulo 2^256 |
| UvmLaws.XorUndoesItself | core/uvm.py:427-428 | XOR, bit by bit, undoes itself |
| UvmPrograms.CalculationRuns | core/uvm.py:387-429 | pushing two words, one of the eleven arithmetic instructions, storing: under any gas limit the program succeeds exactly when the divisor is not zero and the gas of the instruction is there, and then stores the sum, difference or product up to a multiple of 2^256, the quotient or remainder of the first word by the second, the comparison of the first with the second, or the bitwise exclusive or; a zero divisor gives its own error |
| UvmPrograms.ShuffleRuns | core/uvm.py:370-385 | POP drops the last word, SWAP exchanges the last two, NOT turns zero into one and anything else into zero, DUP doubles, for ten units of gas with three pushes |
| UvmPrograms.LargerRuns | core/uvm.py:578-587 | a conditional jump on a comparison and an unconditional one lead to the larger of any two words in storage, for the gas of the path taken; scratch cells are no storage |
| UvmPrograms.Underflows | core/uvm.py:671-674 | an instruction that needs more words than the stack holds stops the run with an underflow |
| UvmPrograms.RunsEndOneWay | core/uvm.py:133-284 | whatever the program: success means no error, reverted means the revert and nothing else, exhausted means out of gas and nothing else, and gas used and gas left add up to the limit |
| NftContract.OnlyTheOwnerTransfers | core/contracts.py:19-36 | for every caller, input, storage and limit the program succeeds exactly when the current (or initial) owner calls with a non-zero recipient and the gas of the path; then the recipient is the owner and the rest of storage is untouched; no run, successful or not, moves funds; gas 291 always suffices for an owner |
| NftContract.CheckCaller | core/contracts.py:25-29 | instructions 4 to 8 pass exactly the stored owner |
| NftContract.HandOver | core/contracts.py:30-36 | instructions 9 to 14 write a non-zero recipient as owner and stop, and trap otherwise |
| Coinflip.VerdictIsCarriedOut | desktop/src/App.tsx:403-458 | for distinct wallets, a positive stake and texts taken as they are, every run either changes nothing, settles without payment, or moves exactly the stake from loser to winner with the contract's net zero; it succeeds exactly when stakes are authorised and covered and gas suffices |
| CoinflipText.ReadAsMeant | core/uvm.py:332-348 | the machine reads the deployed program as the one that is meant exactly when wallets and request are text that neither reads as a number nor has something to strip |
| CoinflipText.DeployedVerdict | desktop/src/App.tsx:403-458 | for such texts the deployed program, as it is read, carries out the verdict of the row above |
| CoinflipText.NumericTextIsNeverPlayed | core/uvm.py:332-348 | when a wallet or the request reads as a number, no run on unsettled storage succeeds and none moves anything |
| Coinflip.NeverPaysTwice | desktop/src/App.tsx:403-406 | in any sequence of runs, each with its own context, gas and balances and failed ones in between, once a run has moved money no later run of the game moves any |
| Coinflip.SettledMovesNothing | desktop/src/App.tsx:405-407 | on storage whose settled word is non-zero every run, also a failed one, moves nothing, and a successful one leaves it settled |
| Coinflip.PayingSettles | desktop/src/App.tsx:420-443 | a run that moves money leaves the game settled |
| Coinflip.TakeStakes | desktop/src/App.tsx:438-443 | both stakes enter the contract, or the run traps |
| Coinflip.PickWinner | desktop/src/App.tsx:444-450 | the parity of the hash of the exclusive or of both revealed seeds picks the side that is paid |
| ChainStates.ChainState.Own | core/blockchain.py:49-78 | a copy has the same contents and shares no dictionary with the original |
| ChainStates.ChainState.Sharing | core/blockchain.py:568-583 | a fast-path child shows the parent's contents with other balances and height while sharing every other dictionary |
| ChainStates.ChainState.ApplyTransaction | core/blockchain.py:891-1063 | the in-place interpreter of all seven kinds does what the specification says; an erring transaction leaves the state and the fee list untouched; a reward adds no fee entry; AcceptedExactly, BalancesMove and RecordsMove say of the specification what is accepted, moved and recorded |
| ChainStates.ChainState.DoTransfer | core/blockchain.py:931-950 | amount and fee leave the sender, amount reaches the receiver, also when they are the same account, and TransfersArrive has it account by account |
| ChainStates.ChainState.DoCommit | core/blockchain.py:952-970 | a commitment is entered under request and sender after all checks, or nothing happens |
| ChainStates.ChainState.DoReveal | core/blockchain.py:972-996 | a reveal is entered together with the commitment it opens, or nothing happens |
| ChainStates.ChainState.DoAuthorize | core/blockchain.py:998-1026 | an authorization with the block's height is appended, or nothing happens |
| ChainStates.ChainState.DoDeploy | core/blockchain.py:1028-1051 | a contract and its storage are entered, or nothing happens |
| ChainStates.ChainState.DoExecute | core/blockchain.py:1065-1204 | escrow, run, fuel fee or full fee, settlement of value, changes and storage only on success, and the receipt in both cases |
| ChainStates.ChainState.MergeBalances | core/blockchain.py:1192-1195 | adding the changes one by one, in any order, gives the merged balances |
| ChainStates.ChainState.AuthorizationIndex | core/blockchain.py:1328-1363 | the index built in one walk through the records is the specified one, later records replacing earlier ones |
| LedgerTheorems.ApplyConserves | core/blockchain.py:891-1063 | every kind of transaction that applies keeps all balances non-negative and changes their sum by the reward, or by minus the fee reported |
| LedgerTheorems.ExecuteConserves | core/blockchain.py:1183-1204 | contract runs, successful, reverted, trapped or out of gas, conserve money and overdraw nobody |
| LedgerTheorems.ExecutedBalances | core/blockchain.py:1183-1196 | what each account holds after a run: fee, amount and recorded changes, the latter two only on success |
| LedgerTheorems.FuelFitsTheFee | core/blockchain.py:1101-1181 | the fee paid lies between zero and the fee escrowed |
| LedgerTheorems.ApplyKeepsRecords | core/blockchain.py:952-1051 | commitments, reveals and contracts are write-once, authorizations append-only, every reveal opens its commitment, and only the sender's nonce moves |
| LedgerTheorems.ApplyCountsNonces | core/blockchain.py:922-928 | an accepted non-reward carries its sender's next nonce, and that nonce alone goes up by one, failed contract runs included |
| LedgerTheorems.SequenceCountsNonces | core/blockchain.py:922-928 | after a sequence every nonce has gone up by the number of the wallet's transactions, and each carried the number before it |
| LedgerTheorems.IndexIsTheRecord | core/uvm_authorization.py:58-81 | a request counts as authorised exactly when some recorded authorization of the wallet names contract, code and request, has begun and has not ended at the height |
| LedgerTheorems.TransfersAreAuthorised | core/blockchain.py:1153-1175 | every transfer of a run comes from the sender, from the address the run is at, or from a wallet with a matching authorization on record for that height |
| LedgerAuthority.NobodyElsePays | core/blockchain.py:891-1063 | whoever a transaction makes poorer is its sender, whose key signed its words, or the deployed contract it runs, or has an authorization on record for that contract, code and height, or is the address without a contract at which it runs a program of its own; rewards make nobody poorer |
| LedgerAuthority.OnlyInlineRunsCostStrangers | core/blockchain.py:1124-1175 | an account that is neither sender nor deployed contract and has authorised nothing is made poorer exactly by a run of a program the transaction carries, with that account as receiver, whose changes cost it more than the transaction brings |
| LedgerAuthority.ExecuteAtWallet | core/blockchain.py:1124-1145 | a run at a receiver without a contract makes it poorer exactly when its own program costs it more than it gets |
| LedgerAuthority.RunCostsOthersOnlyByAuthority | core/blockchain.py:1153-1196 | a run whose changes cost a third party something has that party's authorization on record |
| LedgerAuthority.ApplyKeepsSoundRecords | core/blockchain.py:952-1051 | every accepted transaction keeps the records sound: bounded requests, named wallets, seeds that are words, contracts at the address derived from deployer, nonce and code |
| LedgerAuthority.CommitIsSound | core/blockchain.py:1366-1402 | an accepted commit adds an entry of a named wallet under a bounded request |
| LedgerAuthority.RevealIsSound | core/blockchain.py:1404-1458 | an accepted reveal adds a seed that is a word and a bounded salt |
| LedgerAuthority.AuthorizeIsSound | core/blockchain.py:1276-1325 | an accepted authorization names a contract and a bounded request and, when the contract is deployed, its code hash |
| LedgerAuthority.DeployIsSound | core/blockchain.py:1207-1274 | an accepted deployment stands at the derived address with the hash of its own program and metadata |
| Consent.OnlyTypedSignaturesFixThePayload | core/transaction.py:298-309 | the words a transaction is signed for determine sender, receiver, amount, fee, nonce and time always, and kind and payload exactly when its version is not 1; what is hashed also determines key and signature |
| Consent.LegacySignaturesFitAnyPayload | core/transaction.py:298-303 | a version-1 signature is as valid for the same transaction with any other kind and payload |
| Consent.LegacyCopyIsNotSignedWordForWord | core/blockchain.py:1460-1483 | a concrete version-1 call whose copy with another payload applies and records an authorization that no signed words of the wallet contain |
| Consent.EveryAuthorizationWasSigned | core/blockchain.py:998-1026 | every authorization on record after a branch is the payload of a transaction of that branch whose signature by the wallet is valid |
| Consent.AuthorizationsAreSignedWordForWord | core/blockchain.py:998-1026 | when no authorization of the branch is of version 1, each one on record is contained word for word in words the wallet signed |
| Consent.LossesAreExplained | core/blockchain.py:491-544 | when a block leaves an account poorer, the block holds a validly signed transaction that explains it: its own, a run of it as a deployed contract, a run it authorised earlier on the branch, or a run of a program the transaction carries at its address |
| Consent.MoneyLeavesOnlyByConsent | core/blockchain.py:491-544 | when every run of the block names a contract that is deployed at its turn, the last of these does not occur |
| Consent.MoneyLeavesOnlyByWord | core/blockchain.py:491-544 | when moreover no authorization of the branch is of version 1, the wallet of the last kind has signed the very words of an authorization of that contract and code |
| Consent.ReceiverPaysWithoutConsent | core/blockchain.py:1124-1175 | that condition is needed: on a state which every branch of one reward leads to, a signed call takes coins from a wallet that signed nothing, authorised nothing and is no contract |
| Consent.RecordsAreSound | core/blockchain.py:952-1051 | after every branch all records are sound and no authorization is younger than the block |
| Consent.StoredRecordsAreSigned | core/blockchain.py:401-439 | in every state a chain has stored, fast path included, the records are sound and each authorization was carried by a validly signed transaction of the branch |
| AccountLaws.AcceptedExactly | core/blockchain.py:891-1063 | for every transaction and state: it is accepted exactly when it is authentic, its fee is not negative, its nonce is the next and the conditions of its kind hold, each spelled out in terms of the state (a transfer has a receiver, a positive amount and the funds; a reveal opens the commitment on record and is the first; a deployment has a free, derived address and the hash of its code; and so on) |
| AccountLaws.BalancesMove | core/blockchain.py:891-1204 | for every accepted transaction and every account: the balance after is the balance before and what the transaction changes of it - a transfer takes amount and fee from the sender and brings the amount to the receiver, a successful run moves the amount and its own changes, commitments, reveals, authorizations, deployments and failed runs take the fee only, a reward comes from nowhere; the fee is that of the gas used under a gas price and otherwise all of it |
| AccountLaws.TransfersArrive | core/blockchain.py:931-950 | the same for a transfer, account by account: less amount and fee for the sender, more by the amount for the receiver, also when they are one account |
| AccountLaws.RecordsMove | core/blockchain.py:998-1063 | an authorization is recorded with its wallet, contract, code hash, request, scope and the height, a deployment with its deployer, hash, program and metadata, a run with its receipt of escrow, fee and refund, and these three records change in no other way |
| AccountLaws.PromisesMove | core/blockchain.py:952-996 | a commitment is recorded for its sender and request as it was sent, a reveal with its seed, its salt and the commitment it opens, and neither record changes in any other way |
| History.RevealsFollowCommitments | core/blockchain.py:952-996 | after every branch each reveal on record was made by a transaction that comes after the one that made the commitment it hashes to |
| History.RevealRecords | core/blockchain.py:1404-1458 | an accepted reveal opens the commitment that is on record before it |
| ContractStorage.OnlyRunsWriteStorage | core/blockchain.py:1185-1196 | the storage of an address changes only by a successful run there and then is what the run reports; deployment keeps what is there |
| ContractStorage.PaidRunIsOver | core/blockchain.py:1185-1196 | on the chain, a run of a deployed coinflip that moves money leaves it settled |
| ContractStorage.SettledOnTheBranch | core/blockchain.py:1185-1196 | once a deployed coinflip is settled on a branch it stays settled, and in no later block does a run of it move anything |
| ContractStorage.UntouchedStorageIsEmpty | core/blockchain.py:1041-1050 | after a branch the storage of an address is empty as long as every successful run there, in whatever block, has left it empty |
| ContractStorage.DeploymentKeepsStorage | core/blockchain.py:1050-1050 | a contract starts with exactly the storage its address has at deployment, hence with none exactly when there is none |
| ContractStorage.ContractMayStartWithStorage | core/blockchain.py:1050-1050 | it may have some: a run at the future address followed by the deployment gives a coinflip that starts out settled |
| ChainRuns.CallIsRun | core/blockchain.py:1065-1204 | a call is a run of the deployed program, or of the one it carries, on the contract's storage, with the sender's balance less amount and fee and the contract's with the amount |
| ChainRuns.RequireAuthDecides | core/uvm.py:568-575 | on the chain a run goes on past REQUIRE_AUTH exactly when an authorization of the wallet for the request, contract and code is on record whose scope has begun and not ended at the height; otherwise it stops as not authorised |
| ChainRuns.HasAuthTells | core/uvm.py:548-556 | HAS_AUTH yields one exactly when such an authorization is on record, and otherwise zero |
| ChainRuns.ReadCommitTells | core/uvm.py:475-489 | READ_COMMIT yields a word exactly when such an authorization and the wallet's commitment are on record, and then that commitment; otherwise it stops with the error of what is missing |
| ChainRuns.HasRevealTells | core/uvm.py:507-512 | HAS_REVEAL yields one exactly when the wallet's reveal of the request is on record, and otherwise zero |
| ChainRuns.ReadRevealTells | core/uvm.py:491-505 | READ_REVEAL yields the revealed seed exactly when the reveal is on record, without any authorization |
| ChainRuns.TransferDecides | core/uvm.py:514-546 | on the chain a transfer goes through exactly when its amount is positive, the source is the sender, the contract or has an authorization on record, and the source has the amount; then exactly that amount moves, and otherwise the run stops with the first error of these |
| ChainRuns.MetadataTells | core/uvm.py:453-457 | READ_METADATA yields the words the contract was deployed with, and stops on a missing or unreadable one; a program that the transaction carries has none |
| ChainRuns.InputTells | core/uvm.py:459-463 | READ_INPUT does the same for the words of the call |
| ChainRuns.BlockHeightTells | core/uvm.py:558-561 | BLOCK_HEIGHT yields the height the call is executed at |
| ChainRuns.TxSenderTells | core/uvm.py:563-566 | TX_SENDER yields the caller's address as a word, or stops when it reads as none |
| ChainRuns.PaymentMoves | core/blockchain.py:1065-1204 | for every accepted call of the program that makes one transfer, and every account: exactly when gas, authority and funds are there the transfer and the amount move, and otherwise only the fee, which is that of min(limit, 51) units of gas under a gas price and all of it without one |
| ChainRuns.UnauthorisedCallsDoNothing | core/uvm.py:568-575 | a call of any program that starts with REQUIRE_AUTH of a wallet without an authorization on record costs its fee, moves nothing and leaves storage alone |
| ChainRuns.EndedAuthorizationsSpendNothing | core/uvm_authorization.py:39-55 | whatever program is called, a wallet whose authorizations have all ended loses nothing unless it is caller or callee |
| ChainRuns.TokenOnChain | core/contracts.py:19-36 | an accepted call of a deployed token makes the recipient its owner exactly when the caller is the stored or, at first, the deployed owner, names a non-zero recipient and brings the gas of the path; otherwise storage stays, and no account sees more than amount and fee |
| ChainRuns.GameOnChain | desktop/src/App.tsx:403-458 | an accepted call of a deployed coinflip moves the stake from loser to winner and settles the game exactly when the reveals on record, the deployed deadline and the height decide it, the stakes are authorised on record and covered, and the gas is there; otherwise nobody but caller and contract sees a change |
| BlockTheorems.FastPathIsSlowPath | core/blockchain.py:546-583 | for a block with one transaction the reward-only path accepts exactly when the generic path does, with the same state |
| BlockTheorems.BuildChildIsSlowChild | core/blockchain.py:491-544 | with or without the fast path, a block's state is what the header checks and the generic path give |
| BlockLaws.ExtendsExactly | core/blockchain.py:491-615 | a block extends a known parent state exactly when it is the one genesis block, or its id is the parent's height plus one, its hash is that of its words, the hash meets the difficulty of its id, it holds at most a hundred transactions, the first of which is the only reward, without fee and with a receiver, every transaction is admissible in its turn, and the reward is worth ten coins and the fees paid in turn |
| BlockLaws.AcceptedBlocks | core/blockchain.py:401-439 | a valid chain accepts a block exactly when its hash is new, its parent is known and the conditions of the row above hold against the parent's stored state |
| BlockLaws.StoredBlocksAreSealed | core/block.py:599-608 | every block a valid chain has stored hashes to its key, meets the difficulty, holds at most a hundred transactions and, above genesis, exactly one reward, in front, without fee and worth ten coins and the fees of the block; the one at the bottom is genesis field by field |
| BlockLaws.UnsealedBlocksAreRefused | core/blockchain.py:491-512 | a block with a wrong hash, without its proof of work, with too many transactions or without a single reward in front is never accepted, whatever the chain |
| BlockLaws.StoredBalancesMove | core/blockchain.py:518-544 | from its parent's stored state to its own, a stored block changes every account by exactly what its transactions change of it in turn |
| BlockTheorems.BlockAddsTheReward | core/utils/mining.py:50-96 | a block adds exactly the mining reward to the supply, whatever it contains: fees move to the miner |
| BlockTheorems.SequenceConserves | core/blockchain.py:518-544 | over any sequence, supply plus fees equals the old supply plus rewards |
| BlockTheorems.SupplyIsHeightTimesReward | core/blockchain.py:491-544 | at every height of every branch the balances sum to height times reward, none is negative, and the height is the block id and the length of the branch less one |
| BlockTheorems.NoncesCountTransactions | core/blockchain.py:922-928 | after a branch a wallet's nonce is the number of its transactions from genesis on, and each carried the number before it |
| BlockTheorems.NoReplay | core/blockchain.py:922-928 | two transactions of one sender on a branch have strictly increasing nonces, so no (sender, nonce) occurs twice |
| BlockTheorems.HistoryIsWriteOnce | core/blockchain.py:952-1051 | between any two blocks of a branch records are only added, and every stored reveal opens the commitment on record for its wallet and request |
| BlockTheorems.FailureSticks | core/blockchain.py:522-535 | once a prefix of a block's transactions errs, the block errs with that error |
| BlockTree.MeetingIsLowest | core/blockchain.py:819-852 | in a tree with one root the walk from both sides returns the lowest common ancestor |
| BlockTree.CachedIsRooted | core/blockchain.py:401-439 | whenever every cached state is what its block makes of its parent's, the blocks form a tree with one root whose heights are the block ids |
| BlockTree.CacheIsReplay | core/blockchain.py:401-489 | every cached state is the generic replay of its branch from genesis |
| BlockTree.CacheGrows | core/blockchain.py:419-430 | entering a block with the state built for it keeps the cache a cache |
| BlockTree.ReplayStep | core/blockchain.py:585-615 | a replay of a branch is, at every block, what block acceptance computes from the parent |
| BlockTree.ChildrenGrow | core/blockchain.py:430-432 | the lists of children hold exactly the children, each once |
| BlockTree.TipGrows | core/blockchain.py:652-658 | moving the tip only to higher blocks keeps it at the greatest height |
| BlockTree.TipByHeight | core/blockchain.py:652-658 | comparing cached heights is comparing block ids |
| Mempool.RetainedReplays | core/blockchain.py:795-817 | what reconciling keeps applies in order on the tip, holds no reward and nothing from the new branch |
| Mempool.RetainedOnce | core/blockchain.py:795-817 | no transaction id is kept twice, whatever the hash |
| Mempool.EveryCandidateIsAccountedFor | core/blockchain.py:795-817 | each candidate is kept right after what was kept before it, is on the branch, repeats one kept before it, or does not apply after those |
| Mempool.NothingIsLost | core/blockchain.py:760-817 | reconciling with any new head: every pending transaction is a candidate, every user transaction of an abandoned block is one or is on the new branch, every candidate is accounted for at its own turn as in the row above, and abandoned and new are what lies above the lowest common ancestor; CandidatesAreClaims has the order |
| ReorgOrder.CollectedFromTheBranch | core/blockchain.py:854-874 | the transactions collected above an ancestor are those of the branch from genesis cut off behind the ancestor, oldest block first |
| ReorgOrder.CandidatesAreClaims | core/blockchain.py:770-790 | what is tried on the new tip is, in this order, the user transactions above the lowest common ancestor on the abandoned branch that share no id with the new branch, oldest block first, and then the pool; what excludes a candidate is the part of the new branch above the ancestor |
| ReorgOrder.ReorgKeepsOrder | core/blockchain.py:790-817 | whatever first part of these, all new, applies in order on the new tip, the new pool starts with it; when all of them do, the new pool is exactly that sequence |
| ReorgOrder.AbandonedThenPending | core/blockchain.py:760-817 | on a chain whose ids tell nonces apart: when the abandoned user transactions and behind them the first pending ones apply in order on the new tip, the pool starts with exactly these, so that a pending transaction that waits for abandoned ones of its sender is kept behind them |
| Mempool.PoolSettles | core/blockchain.py:753-817 | reconciling a pool that applies, with nothing abandoned, keeps it unchanged |
| Mempool.DistinctWordsDoNotClash | core/serialization.py:10-25 | a transaction hash that tells words apart tells sender and nonce apart, also in version 1 |
| Mempool.IntactPoolIsKept | core/blockchain.py:795-817 | a pool that applies, disjoint from the branch and without repeats, survives as it is |
| Mempool.SortingIsStable | core/blockchain.py:690-694 | the order of candidates is a permutation by falling fee that keeps arrival order among equal fees |
| Mempool.SelectionIsMaximal | core/blockchain.py:689-727 | the repeated passes end with a selection that applies in order, loses nobody, and is full or cannot be extended by anybody left |
| Mempool.SelectedIsMaximal | core/blockchain.py:689-727 | the selection is a part of the pool of at most 99 that applies in order, and it is full or no unpicked transaction applies after it |
| ReorgOrder.BestFeesGoFirst | core/blockchain.py:689-727 | in the order of falling fees, equal fees as they came: whatever first part of at most 99 applies in order is what the block starts with, and when it is all or 99 it is exactly the selection |
| ReorgOrder.BestFeeIsFirst | core/blockchain.py:689-727 | the first selected transaction pays at least the fee of every pending transaction that applies by itself |
| Mempool.IdlePassTriesAll | core/blockchain.py:698-725 | a pass that selects nobody has tried everybody against the final state |
| BlockAssembly.RunKeepsRicher | core/uvm.py:514-546 | a run that does not stop on the miner's balance goes the same way, instruction by instruction, when the miner holds more |
| BlockAssembly.ExecutionKeepsRicher | core/uvm.py:133-284 | hence its whole report is the same |
| BlockAssembly.ApplyKeepsRicher | core/blockchain.py:891-1063 | a transaction that applies still applies, for the same fee, when one account holds more |
| BlockAssembly.SequenceKeepsRicher | core/blockchain.py:729-751 | so does a sequence of transactions |
| BlockAssembly.WithoutExecutesSteady | core/blockchain.py:729-751 | a selection without contract runs always meets the condition of the next row |
| BlockAssembly.MinedBlockIsAccepted | core/blockchain.py:341-366 | a reward-first block built from a selection that applies passes the block checks once its proof of work is good, provided no contract run of the selection stopped on the miner's balance |
| SpoiledBlocks.RewardMaySpoilTheBlock | core/blockchain.py:342-351 | the proviso is needed: fees are computed before the reward is credited, and on a state which every branch of ten rewards leads to, a selection that applies gives a block refused for its reward amount |
| SpoiledBlocks.FeesDifferByTheRun | core/blockchain.py:729-751 | when a run after steady transactions is followed by fixed fees, the block applies exactly when what follows applies after the run with the reward, and then pays what was computed plus what that run pays more or less |
| SpoiledBlocks.FirstStoppedRunDecides | core/blockchain.py:341-370 | then the block is accepted exactly when that run has no gas price or uses as much gas with the reward as without, and what follows goes on; with other gas it is refused for its reward amount |
| RewardBranches.RewardsOnlyReplays | core/blockchain.py:546-583 | a branch of blocks that hold nothing but their reward replays to the state in which the miner holds all rewards |
| RewardBranches.RewardedIsRewardsOnly | core/blockchain.py:491-544 | there are such branches of every length, with distinct hashes |
| ReachedChains.ChainOnRewards | core/blockchain.py:401-439 | a chain to which such a branch is added holds just its blocks and has the state of its rewards at the main tip |
| ReachedChains.MiningFails | core/blockchain.py:327-376 | on a chain of ten rewards a pool of one transaction replays, and mining it is refused for the reward amount |
| ReachedChains.WalletPays | core/blockchain.py:300-376 | on a chain whose only reward went to a wallet, a signed call with its own program enters the pool, is mined, and leaves the wallet poorer |
| ReachedChains.TalliedBranchesServe | core/blockchain.py:401-439 | there are rules, branches and seals that meet what these chains ask for, at every height |
| Blockchains.Blockchain.constructor | core/blockchain.py:88-100 | the empty chain is valid and its pool replays |
| Blockchains.Blockchain.BuildRewardOnlyChildState | core/blockchain.py:546-583 | the shared-dictionary child has the specified contents and is built from fresh balances; the parent keeps its own |
| Blockchains.Blockchain.BuildChildState | core/blockchain.py:491-544 | the child or the error is the specified one, and no stored state changes although dictionaries are shared |
| Blockchains.Blockchain.ApplyBlock | core/blockchain.py:518-544 | the generic path on a copy gives the specified state or error and leaves the parent alone |
| Blockchains.Blockchain.GetParentState | core/blockchain.py:585-615 | genesis, missing parent and wrong height are told apart as specified |
| Blockchains.Blockchain.AddBlock | core/blockchain.py:401-439 | the verdict is a function of the stored tree and the block; a refused block changes nothing; an accepted one enters blocks, states, children and tip, all stored states stay what they were, and the reconciled pool replays on the new tip with every candidate accounted for at its turn and in the order of ReorgKeepsOrder; the tip moves to the block exactly when there was none or the block is higher |
| Blockchains.Blockchain.FindCommonAncestor | core/blockchain.py:819-852 | the method on the stored blocks computes the specified meeting point |
| Blockchains.WalkToMeeting | core/blockchain.py:829-852 | the loop that climbs from the higher side and then from both ends at the specified meeting point |
| Blockchains.Blockchain.CollectBranchTransactions | core/blockchain.py:854-874 | the transactions above the ancestor, oldest block first |
| Blockchains.Blockchain.ReconcilePendingTransactions | core/blockchain.py:760-817 | the new pool is the specified one and replays on the main tip, whatever it was before; with CandidatesAreClaims and ReorgKeepsOrder it is fixed in content and order |
| Blockchains.Filter | core/blockchain.py:795-817 | candidates are tried one by one on copies and exactly the specified ones kept |
| Blockchains.Blockchain.AddTransaction | core/blockchain.py:300-325 | a transaction enters the pool exactly when pool and transaction apply in order and it is no reward; a refused one changes nothing; a pool that replays goes on replaying |
| Blockchains.Blockchain.SelectTransactions | core/blockchain.py:689-727 | the method's selection is the specified one and tries nothing on a stored state |
| Blockchains.SelectByFee | core/blockchain.py:695-727 | the loop of passes computes the specified selection |
| Blockchains.Blockchain.CalculateFees | core/blockchain.py:729-751 | the fees are those of the selection on the tip before any reward |
| Blockchains.Blockchain.MinePendingTransactions | core/blockchain.py:327-376 | mining builds the specified candidate, adds it when it is accepted and otherwise changes nothing; what it adds is the block of the next row; it succeeds under the proviso of MinedBlockIsAccepted |
| Blockchains.Blockchain.CandidateIsMined | core/blockchain.py:327-376 | the mined block stands one above the tip and names it, carries description, nonce and hash given, and holds first the miner's reward of ten coins and the fees the selection pays on the tip, and then the selection |
| Blockchains.Blockchain.SafeMiningIsAccepted | core/blockchain.py:327-376 | the candidate of a chain whose pool replays is accepted under that proviso |
| Blockchains.Blockchain.VerifyChain | core/blockchain.py:441-489 | on every chain these methods can reach it returns true, recomputes the same states and leaves blocks, tip and a pool that replays unchanged |
| Blockchains.Blockchain.RecomputeAll | core/blockchain.py:444-476 | recomputing in any order gives every stored state again and exactly the children lists, and meets one genesis |
| Blockchains.Blockchain.ComputeState | core/blockchain.py:448-470 | the recursion along parents reaches a known state and adds what is missing |
| Blockchains.Blockchain.SelectBestTip | core/blockchain.py:660-687 | choosing anew among the childless blocks gives the main tip again |
| Blockchains.TipIsCandidate | core/blockchain.py:660-687 | the main tip is childless and no stored block is higher |
| Blockchains.StoredStatesAreSound | core/blockchain.py:401-489 | every stored state is the generic replay of its branch; balances are non-negative and sum to height times reward; nonces count transactions; reveals open commitments |
| Orphans.ChainIsWhatIsWorthy | node/node.py:2604-2697 | the chain holds exactly the delivered blocks whose whole ancestry was delivered and validates |
| Orphans.SameBlocksSameChain | node/node.py:2604-2697 | two nodes with the same deliveries hold the same tree with the same states |
| Orphans.RefusalLasts | node/node.py:2692-2697 | a block refused once is refused by every later chain |
| Orphans.RepeatChangesNothing | node/node.py:2604-2631 | a block that comes again is in the chain, waits for an unknown parent, or is refused again |
| Orphans.TakeOffShelf | node/node.py:2668-2671 | the orphans of an accepted parent are taken in hand and nothing else moves |
| Orphans.PutOnShelf | node/node.py:2658-2663 | an orphan is shelved under its unknown parent |
| Nodes.Node.AcceptOrStoreBlock | node/node.py:2604-2631 | whatever the verdict on a block that shares its hash with no other delivered one, the node afterwards holds every delivered block in exactly one place: chain, shelf or refused |
| Nodes.Node.StoreOrphanBlock | node/node.py:2658-2663 | storing an orphan twice does nothing the second time |
| Nodes.Node.ResolveOrphanDescendants | node/node.py:2665-2697 | the worklist ends, and afterwards no stored orphan's parent is in the chain |
| Nodes.Node.ResolveOrphansOf | node/node.py:2668-2697 | one round pops a parent's orphans and opens exactly the accepted ones |
| Nodes.Node.Deliver | node/node.py:2604-2697 | delivering any sequence of blocks with distinct hashes, with any repeats, keeps all of this and, when reconciling, a pool that replays |
| Nodes.OrderDoesNotMatter | node/node.py:2604-2697 | two nodes that were delivered the same blocks with distinct hashes in any orders, with any repeats, have the same blocks and states and main tips of the same height |
| Nodes.TypedOrderDoesNotMatter | node/node.py:2604-2697 | in particular for authentic blocks without version-1 transactions, under a hash that tells words apart |
| HashedBlocks.WordsFixExactlyTypedBlocks | core/serialization.py:10-40 | the words an authentic block is hashed by fix it exactly when it holds no version-1 transaction |
| HashedBlocks.TypedBlocksAreDistinct | core/serialization.py:10-40 | under a hash that tells words apart, authentic blocks without version-1 transactions that claim their own hash carry distinct hashes |
| HashedBlocks.LegacyWordsDoNot | core/serialization.py:10-16 | for every authentic block with a version-1 transaction there is another authentic one with the same words |
| HashedBlocks.CopyBlockApplies | core/blockchain.py:491-544 | on every state of rewards the block with the version-1 call under either payload applies, and puts its own request on record |
| ReachedChains.OneHashTwoStates | core/blockchain.py:401-439 | two chains with the same blocks that are offered the same two blocks in different orders keep different blocks and states under the one hash |
| Nodes.OrphansWaitForTheUnknown | node/node.py:2658-2697 | between deliveries every stored orphan waits under its parent's hash and that parent is unknown |
| Storage.Save | node/storage.py:27-41 | what is written is the branch of the main tip, oldest first, or nothing when there is none, with the pool |
| Storage.CanonicalChain | core/blockchain.py:144-160 | walking down from the tip and turning around gives the branch |
| Storage.LoadBlocks | node/storage.py:106-112 | loading a branch that replays accepts every block and ends at its tip |
| Storage.LoadPending | node/storage.py:114-115 | a pool is restored exactly when it applies in order on the tip and holds no reward |
| Storage.Load | node/storage.py:60-122 | loading gives a valid chain whose pool replays, and never fails on what is loadable |
| Storage.SavedIsLoadable | node/storage.py:27-41 | what any chain with a replaying pool saves is loadable and replays to the state of its tip |
| Storage.SaveAndLoad | node/storage.py:27-122 | saving and loading any chain, the empty one included, never fails and gives the same canonical chain, tip, tip state and pool |
| Records.CanonicalOnce | core/transaction.py:22-34 | making a payload canonical twice is making it canonical once |
| Records.TransactionRoundTrip | core/transaction.py:252-316 | a constructed transaction read back from its dictionary is the same with a canonical payload, and is written and signed as before |
| Records.BlockRoundTrip | core/block.py:43-95 | a block read back keeps its claimed hash, every field and its transactions, and is written as before |
| StoredChain.BlocksReadBack | node/storage.py:27-112 | the dictionaries written for blocks read back as blocks that mean the same to the ledger |
| StoredChain.LoadFile | node/storage.py:60-122 | records that can be read and mean a loadable chain are loaded into it |
| StoredChain.WriteAndLoad | node/storage.py:27-122 | writing a chain as dictionaries, reading them back and loading gives the same canonical chain, tip, tip state and pool |
| Decimals.DecimalDenotes | native/powmodule.c:265-279 | the numeral of a number has no leading zero and denotes it |
| Decimals.NumeralsAreUnique | native/powmodule.c:265-279 | a digit string without leading zero is the numeral of what it denotes |
| Decimals.WriteDecimal | native/powmodule.c:265-279 | collecting digits backwards and turning them around writes the numeral |
| Decimals.IncrementByOne | native/powmodule.c:326-350 | the carry loop turns the numeral of n in place into that of n + 1 and reports the first changed digit, the growth by a digit, or that the buffer is full |
| Decimals.IncrementBy | native/powmodule.c:281-324 | the same for any step below 2^64, with the carry that remains written in front |
| Decimals.TwentyDigits | native/powmodule.c:265-279 | a 64-bit number has at most twenty digits |
| Sha256Blocks.PaddingFillsBlocks | native/powmodule.c:363-423 | the padding of section 5.1.1 of FIPS 180-4 ends a block and uses the fewest zeros; PaddedExactly has all its bytes |
| Sha256Blocks.LengthIsModular | native/powmodule.c:352-361 | the eight length bytes depend on the length modulo 2^64 only |
| Sha256Standard.LengthIsRead | native/powmodule.c:352-361 | the eight length bytes are bytes and, read with the most significant first, are the length in bits modulo 2^64 |
| Sha256Standard.PaddedExactly | native/powmodule.c:363-423 | message and padding are the only sequence that starts with the message, goes on with 0x80 and as few zeros as fill the last block, and ends in eight bytes that denote the length of the message in bits modulo 2^64 |
| Sha256Standard.DigestsPadded | native/powmodule.c:462-476 | the digest of a message is what compressing its padded form block by block from the front gives |
| Sha256Blocks.Context.Absorb | native/powmodule.c:252-263 | one byte more: full blocks are folded in, the rest is held, the length counts the folded bits modulo 2^64 |
| Sha256Blocks.Context.Update | native/powmodule.c:252-263 | after any update the context holds exactly the bytes given so far |
| Sha256Blocks.PreparedBlocks.Prepare | native/powmodule.c:363-423 | the one or two blocks laid out for a nonce are rest, digits and padding |
| Sha256Blocks.PreparedBlocks.LaidBlocks | native/powmodule.c:363-423 | laid blocks are rest ++ digits ++ padding of the whole message, in all three cases of where the padding starts |
| Sha256Standard.PreparedBlocksEndThePadded | native/powmodule.c:363-423 | behind the whole blocks of the prefix, the blocks laid out for a nonce are the end of that padded message |
| Sha256Blocks.PreparedBlocks.Update | native/powmodule.c:425-460 | overwriting the digits from the first changed one on turns the blocks of the old nonce into those of the new one |
| ProofOfWork.HashPrepared | native/powmodule.c:462-476 | compressing the prepared blocks on the prefix state is the digest of section 6.2.2 of FIPS 180-4 of prefix ++ digits |
| ProofOfWork.HashPrefixWithNonce | core/cuda_pow.py:773-810 | the plain way through a copied context gives the same hash |
| ProofOfWork.Complete | core/cuda_pow.py:783-810 | finishing a context, with one or two blocks, gives the digest |
| ProofOfWork.StartsWithZerosByNumber | core/block.py:124-131 | testing words for leading zeros is comparing the digest as a number with a power of two |
| ProofOfWork.WordsHaveLeadingZeroBits | native/powmodule.c:494-512 | the word loop with its last partial word is that test, for every difficulty up to 256 |
| ProofOfWork.Advance | native/powmodule.c:583-604 | moving to the next nonce patches buffer and blocks to those of nonce + step, and fails exactly when the numeral no longer fits |
| ProofOfWork.SearchRange | native/powmodule.c:538-614 | the search returns the first winner with the number of candidates tried, or the nonce at which it was cancelled or ran out of room after candidates none of which wins, or, at its limit, the last candidate when none wins; the digests are those of DigestsPadded |
| ProofOfWork.FoundNonceIsTheWinner | native/powmodule.c:538-614 | the nonce returned is the winning one exactly when the winner fits 64 bits |
| ProofOfWork.SearchWithinSixtyFourBits | native/powmodule.c:538-614 | as long as the candidates fit 64 bits no search runs out of room, and without winner or cancellation all candidates were tried and none wins |
| GpuSearch.WindowKeepsDigits | core/cuda_pow.py:952-970 | a window is never empty, never crosses into numerals of another length, and is as long as batch, remaining attempts and digit count allow |
| GpuSearch.EmptyExactlyPastTheLastNonce | core/cuda_pow.py:952-970 | a window of step one is empty exactly past the last 64-bit nonce |
| GpuRange.MoveKeepsFair | core/cuda_pow.py:575-660 | no move of a thread, with however old a view of the shared index, loses a winner |
| GpuRange.EveryInterleavingFindsTheLeast | core/cuda_pow.py:525-731 | a thread reads the shared index once and lowers it once; after every complete interleaving of these steps the atomic minimum is the least winning index |
| GpuRange.MovesRunOut | core/cuda_pow.py:575-660 | every move uses up work, so every interleaving ends |
| GpuRange.RunKernel | core/cuda_pow.py:525-731 | a launch whose threads scan with their kernel, under any scheduler and with any stale reads, returns the least winner of the window |
| GpuRange.ChooseKernel | core/cuda_pow.py:1047-1112 | a window of one digit count gets the one-block kernel exactly when rest, digits and padding fit one block, and otherwise the two-block one; other windows the generic one |
| GpuRange.ScanGeneric | core/cuda_pow.py:525-573 | one generic thread finds the first winner among its candidates, with nonces formed in 64 bits |
| GpuRange.ScanThread | core/cuda_pow.py:525-731 | whichever kernel serves a window, a thread returns the first winner among its candidates |
| GpuRange.ThreadsCover | core/cuda_pow.py:1043-1044 | the grid computed for a window has a thread for every candidate |
| GpuSearch.WriteFixedDigits | core/cuda_pow.py:307-316 | writes the numeral in its fixed number of digits |
| GpuSearch.IncrementFixedDigits | core/cuda_pow.py:329-343 | gives the next numeral, or fails exactly when it needs a digit more |
| GpuSearch.ScanFixedDigits | core/cuda_pow.py:575-660 | one thread on patched blocks finds the first winner among its candidates |
| SingleBlock.PackedKeepsBytes | core/cuda_pow.py:974-990 | packing a block into sixteen words loses nothing |
| Sha256Standard.WordsEndThePadded | core/cuda_pow.py:974-990 | so is the single block in words, and each word is its four bytes read with the most significant first |
| SingleBlock.WriteWordByte | core/cuda_pow.py:318-327 | masking and shifting replaces exactly one byte of the block the words stand for |
| SingleBlock.PrepareSingleBlockWords | core/cuda_pow.py:974-990 | words are prepared exactly when rest and digits leave room for the padding, and stand for rest, room for the digits, and padding |
| SingleBlock.HashWords | core/cuda_pow.py:703-712 | one compression of the words on the prefix state is the digest of prefix ++ digits |
| SingleBlock.NextWords | core/cuda_pow.py:721-729 | buffer and words move on to the next nonce of the same length |
| SingleBlock.ScanSingleBlock | core/cuda_pow.py:662-731 | one thread that patches words finds the first winner among its candidates, as the two-block kernel does |
| GpuRange.SearchGpuRange | core/cuda_pow.py:993-1130 | the windows, each served by its kernel, tile the range in order: the least winning nonce with its hash and count, or a cancellation, or all candidates tried and none wins, or stuck right after the last 64-bit nonce; what is said of a candidate supposes only that those up to it fit 64 bits |
| GpuRange.SearchWindow | core/cuda_pow.py:1037-1117 | one launch finds the least winner of its window, with the digit count the window was cut for |
| Arithmetic.Bezout | wallet/crypto.py:49-54 | the first component divides both numbers, is the combination the other two give, and is divided by every common divisor |
| Arithmetic.FloorModIsSmall | wallet/crypto.py:53-54 | the remainder of the floor division has the sign of the divisor and is smaller |
| Rsa.ModInverseIsExact | wallet/crypto.py:42-46 | an inverse is returned exactly when there is one, reduced and correct |
| Rsa.TwosAndOddPart | wallet/crypto.py:19-23 | the number less one is an odd part times a power of two |
| Rsa.SplitOffTwos | wallet/crypto.py:19-23 | the loop finds that odd part and exponent |
| Rsa.Fermat | wallet/crypto.py:25-37 | Fermat's little theorem, on which the test rests |
| Rsa.RootsOfOne | wallet/crypto.py:32-37 | modulo a prime only 1 and -1 square to 1 |
| Rsa.PrimesAreStrong | wallet/crypto.py:26-37 | a prime passes a round for every base |
| Rsa.PassesTest | wallet/crypto.py:26-37 | a round of squarings decides the strong test for its base |
| Rsa.IsProbablePrime | wallet/crypto.py:13-40 | the answer is exactly that all drawn bases pass, and no prime is ever rejected, whatever is drawn |
| Rsa.StrongInPowers | wallet/crypto.py:13-40 | for n - 1 = r doubled k times with r odd, a witness w passes exactly when w^r leaves 1, or one of w^r, w^2r and so on below w^(n-1) leaves n - 1 |
| Rsa.StrongIsFermat | wallet/crypto.py:13-40 | whatever passes for w satisfies w^(n-1) = 1 modulo n |
| Rsa.SharedFactorsFail | wallet/crypto.py:13-40 | a witness that shares a factor with the number proves it composite |
| Rsa.KeysAreExact | wallet/crypto.py:57-72 | two numbers above one give keys exactly when they differ and 65537 has an inverse modulo the product of their predecessors; the keys are 65537, that inverse and the product |
| Rsa.RoundTripModulo | wallet/wallet.py:24-57 | raising to e and d gives the digest back modulo p q, coprime or not |
| Rsa.SignaturesVerify | wallet/wallet.py:24-57 | with keys derived from distinct primes a signature verifies exactly when the digest is below the modulus |
| FastSync.ChunkFacts | network/p2p_server.py:1043-1064 | a chunk has twenty blocks and names the next height, or is the rest of the chain and the last |
| FastSync.SendChainStream | network/p2p_server.py:885-927 | the loop sends exactly the specified stream and ends |
| FastSync.StreamIsTheChain | network/p2p_server.py:885-927 | the chunks are in order and join to chain[start:] |
| FastSync.Receiver.HandleChunk | network/p2p_server.py:929-941 | any chunk of the stream, new, repeated or late, keeps the receiver sound and takes back nothing handed over |
| FastSync.Receiver.Drain | network/p2p_server.py:943-1013 | pending chunks are handed over as long as the expected one is among them |
| FastSync.Receiver.HandOver | network/p2p_server.py:959-1013 | the expected chunk is handed over once and the next is expected, whatever the handler replies that lets the sync go on |
| FastSync.HandedIsAPrefix | network/p2p_server.py:929-1028 | in every order of arrival with every repetition, the blocks handed over are those of the leading arrived chunks, each once: a prefix of chain[start:], and all of it with the sync over once all have arrived |
| Assembler.TokensAreStable | assembler/compiler.py:425-435 | a parsed token read again by the virtual machine is the same operand |
| Assembler.FirstPass | assembler/compiler.py:161-217 | labels stand for the number of instructions before them, each name is declared once, opcodes are known; otherwise the fault is a real one |
| Assembler.SecondPass | assembler/compiler.py:219-242 | each instruction is resolved in order with its line, or the error of one of them is returned |
| Assembler.AssembleSource | assembler/compiler.py:150-260 | assembling succeeds with labels, constants, program and source map as specified, or names a fault the source has |
| AssemblerLaws.ProgramAsWritten | assembler/compiler.py:221-242 | every instruction of the source stands at the number of instructions before it with its own opcode, and each operand is what its token means: the place of the label a jump names, with or without an at sign, the value of the constant named, or the number, in base sixteen or ten, or text that it spells; numbers for PUSH and jumps, text for the others, as many as the instruction takes |
| AssemblerLaws.AssemblesExactly | assembler/compiler.py:150-260 | a source assembles exactly when no label or constant is defined twice, every opcode is known and the tokens of every instruction mean operands it can take |
| Assembler.LabelsMore | assembler/compiler.py:166-184 | one line more keeps every label at the number of instructions before it |
| Assembler.OperandsAreStable | assembler/compiler.py:354-402 | the operands the machine reads are those the assembler resolved |
| Assembler.StepsAgree | assembler/compiler.py:354-402 | one step of the source and one of the assembled program have the same effect and agree on where to go on |
| Assembler.RunsInLockstep | assembler/compiler.py:150-260 | from every place, memory and gas, the source run and the machine run of the assembled program end alike, with the same memory and gas and matching places |
| Assembler.JumpPastTheEnd | core/uvm.py:659-662 | the condition on labels is needed in every source: a taken jump to a label with nothing after it is out of bounds |
| Assembler.TrailingLabelIsOutOfBounds | core/uvm.py:659-662 | a concrete such source |
| Assembler.NumericTextIsMisread | core/uvm.py:332-348 | the condition on constants is needed in every source: an instruction that names a text constant which reads as a number has a key operand in the source and a word in the machine, where it traps |
| Assembler.OnlyPlainConstantsAreStable | core/uvm.py:332-348 | the machine takes a constant for what it is exactly when it is not text that reads as a number or has something to strip |

## Left out

- MinedBlockIsAccepted: the condition is sufficient and not necessary, because a run that goes on after the reward may pay the same, or later fees may make up for it, and then the block is accepted by coincidence; FirstStoppedRunDecides is exact for the first such run when the fees after it are fixed.
- SearchGpuRange: nothing is claimed of candidates past 64 bits, where nonces wrap around in the kernels.
- EveryAuthorizationWasSigned: for version 1 the signature does not cover the payload; AuthorizationsAreSignedWordForWord has the other versions.
- LossesAreExplained: a sender of a version-1 transaction has signed its words without kind and payload, so that the sender's own loss is signed for in these words only.
- WriteAndLoad: that the ledger reads a payload and its canonical form alike is required of the reading, which is a parameter.
- AcceptOrStoreBlock: no other block is delivered under the hash. This leaves out version-1 blocks that share their words, and orphans shelved under a claimed hash that is not theirs, which make the node drop a later real block with that hash (node/node.py:2658-2663), because a claimed hash is verified only when the parent is known.
- Deliver: the same.
- OrderDoesNotMatter: the same; OneHashTwoStates shows that it fails for version-1 blocks that share their words.
- Typed: a missing signature and an empty one have the same words, so authenticity is asked of the blocks.
- HandOver: the handler's replies are assumed not to trigger the retry from genesis and the stop without progress.
- AssembleSource: of several faults in a source it does not say which one is reported.
- TransactionRoundTrip: what the codec writes for amounts and times is assumed to be read back as the same value.
- IsProbablePrime: composites that pass by chance; no statement about probability is made.
- SaveAndLoad: blocks off the canonical chain are not saved, so only the canonical chain comes back; the migration of files without an activation height is not modelled.
- WordsHaveLeadingZeroBits: the compression function is assumed to give eight 32-bit words.
- Private automine, cloud-native automine and autosend, with their own mempool rules and their fast acceptance of mined blocks.
- The difficulty schedule, beyond being a function of the height.
- Sockets, scheduling, timeouts, handshakes, HTTP, command line, user interface, wallet files.
- Text processing: JSON, tokenising, comments, directives, character case.
- SHA-256 compression, its ARM variant, CuPy and Metal builds, backend choice and tuning.
- Random key generation; key derivation starts from two given primes.
- Timestamps, the descriptions of errors, receipts as dictionaries, notifications.

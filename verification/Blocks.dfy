/** Blocks: the reward rules, the state a block makes of its parent's state, and the fast path
    for blocks that hold nothing but their reward. */
module Blocks {
  import opened Base
  import opened Ledger

  const GENESIS_PREVIOUS_HASH: string := "0000000000000000000000000000000000000000000000000000000000000000"
  const GENESIS_DESCRIPTION: string := "Genesis block"
  const GENESIS_NONCE: int := 42
  const GENESIS_HASH: string := "003b875e335a9acf04b9c275499e9d5c283520af89558ca3b558c6a37dcc0a30"
  const MINING_REWARD: real := 10.0
  const MAX_TRANSACTIONS_PER_BLOCK: nat := 100

  datatype Block = Block(
    id: int,
    transactions: seq<Transaction>,
    description: string,
    previousHash: string,
    nonce: int,
    hash: string
  )

  // The words a block is hashed by.
  datatype BlockWords = BlockWords(id: int, transactions: seq<HashedWords>, description: string, previousHash: string, nonce: int)

  function BlockWordsOf(b: Block): (w: BlockWords)
    ensures |w.transactions| == |b.transactions|
  {
    var txs := b.transactions;
    BlockWords(b.id, seq(|txs|, i requires 0 <= i < |txs| => HashedOf(txs[i])), b.description, b.previousHash, b.nonce)
  }

  // What a chain is configured with: the hash of a block's words, and whether a claimed hash meets
  // the difficulty of a height.
  datatype Rules = Rules(crypto: Crypto, hashBlock: BlockWords -> string, meetsDifficulty: (string, int) -> bool)

  function HashOf(r: Rules, b: Block): string {
    r.hashBlock(BlockWordsOf(b))
  }

  ghost predicate DistinctlyHashed(blocks: seq<Block>) {
    forall i, j :: 0 <= i < j < |blocks| ==> blocks[i].hash != blocks[j].hash
  }

  datatype BlockError =
    | TooManyTransactions
    | GenesisHoldsReward | NoReward | SeveralRewards | RewardNotFirst | RewardCarriesFee | RewardHasNoReceiver
    | HashMismatch | NoProofOfWork | BadTransaction(error: TxError) | WrongRewardAmount
    | BadGenesis | OtherGenesis | WrongHeight | MissingParent

  // The transaction that rewards a miner with the fees of a block.
  function RewardTransaction(miner: string, fees: real, timestamp: string): Transaction {
    Transaction(REWARD_SENDER, miner, MINING_REWARD + fees, 0.0, 0, None, None, TransferFunds, timestamp, 2)
  }

  type StateResult = Result<State, BlockError>

  function Rewards(txs: seq<Transaction>): seq<Transaction> {
    if txs == [] then []
    else if IsReward(txs[0]) then [txs[0]] + Rewards(txs[1..])
    else Rewards(txs[1..])
  }

  function RewardStructureError(b: Block): Option<BlockError> {
    var rewards := Rewards(b.transactions);
    if b.id == 0 then if rewards != [] then Some(GenesisHoldsReward) else None
    else if rewards == [] then Some(NoReward)
    else if |rewards| != 1 then Some(SeveralRewards)
    else if b.transactions == [] || b.transactions[0] != rewards[0] then Some(RewardNotFirst)
    else if rewards[0].fee != 0.0 then Some(RewardCarriesFee)
    else if rewards[0].receiver == "" then Some(RewardHasNoReceiver)
    else None
  }

  function RewardAmountError(b: Block, totalFees: real): Option<BlockError>
    requires b.id != 0 ==> Rewards(b.transactions) != []
  {
    if b.id != 0 && Rewards(b.transactions)[0].amount != MINING_REWARD + totalFees then Some(WrongRewardAmount) else None
  }

  function VerificationError(r: Rules, b: Block): Option<BlockError> {
    if b.hash != HashOf(r, b) then Some(HashMismatch)
    else if !r.meetsDifficulty(b.hash, b.id) then Some(NoProofOfWork)
    else None
  }

  function GenesisError(r: Rules, b: Block): Option<BlockError> {
    if b.id != 0 || b.transactions != [] || b.description != GENESIS_DESCRIPTION
       || b.previousHash != GENESIS_PREVIOUS_HASH || b.nonce != GENESIS_NONCE
       || HashOf(r, b) != GENESIS_HASH || b.hash != GENESIS_HASH
    then Some(BadGenesis) else None
  }

  // The checks that come before any transaction is applied.
  function HeaderError(r: Rules, b: Block): Option<BlockError> {
    if |b.transactions| > MAX_TRANSACTIONS_PER_BLOCK then Some(TooManyTransactions)
    else if RewardStructureError(b).Some? then RewardStructureError(b)
    else VerificationError(r, b)
  }

  // The generic path: apply every transaction in order, then check the reward against the fees.
  function SlowChild(r: Rules, b: Block, parent: State): StateResult
    requires RewardStructureError(b).None?
  {
    var applied := ApplyAll(r.crypto, parent.(height := b.id), b.transactions, b.id);
    if applied.Failure? then Failure(BadTransaction(applied.error))
    else if RewardAmountError(b, applied.value.feePaid).Some? then Failure(RewardAmountError(b, applied.value.feePaid).value)
    else Success(applied.value.state)
  }

  // The fast path: a block with nothing but a well-formed reward only credits the miner.
  function FastChild(r: Rules, b: Block, parent: State): Option<State>
    requires RewardStructureError(b).None?
  {
    if b.id == 0 || |b.transactions| != 1 then None
    else if !IsReward(b.transactions[0]) then None
    else if AuthenticityError(r.crypto, b.transactions[0]).Some? then None
    else if RewardAmountError(b, 0.0).Some? then None
    else
      var reward := b.transactions[0];
      Some(parent.(balances := Credited(parent.balances, reward.receiver, reward.amount), height := b.id))
  }

  function BuildChild(r: Rules, b: Block, parent: State): StateResult {
    if HeaderError(r, b).Some? then Failure(HeaderError(r, b).value)
    else if FastChild(r, b, parent).Some? then Success(FastChild(r, b, parent).value)
    else SlowChild(r, b, parent)
  }

  // A block on top of a known parent state; None stands for the empty chain.
  function Extend(r: Rules, b: Block, parent: Option<State>): StateResult {
    if b.previousHash == GENESIS_PREVIOUS_HASH then
      if GenesisError(r, b).Some? then Failure(BadGenesis) else BuildChild(r, b, EMPTY_STATE)
    else if parent.None? then Failure(MissingParent)
    else if b.id != parent.value.height + 1 then Failure(WrongHeight)
    else BuildChild(r, b, parent.value)
  }

  // Replaying a branch from genesis on the generic path only.
  function Replay(r: Rules, branch: seq<Block>): StateResult {
    if branch == [] then Failure(MissingParent) else
    var b := branch[|branch| - 1];
    if HeaderError(r, b).Some? then Failure(HeaderError(r, b).value)
    else if |branch| == 1 then
      if b.previousHash != GENESIS_PREVIOUS_HASH || GenesisError(r, b).Some? then Failure(BadGenesis)
      else SlowChild(r, b, EMPTY_STATE)
    else
      var parent :- Replay(r, branch[..|branch| - 1]);
      if b.previousHash != branch[|branch| - 2].hash || b.previousHash == GENESIS_PREVIOUS_HASH then Failure(MissingParent)
      else if b.id != parent.height + 1 then Failure(WrongHeight)
      else SlowChild(r, b, parent)
  }
}

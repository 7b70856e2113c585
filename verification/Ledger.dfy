/** Transactions and the state they act on: what each kind of transaction requires and changes. */
module Ledger {
  import opened Base
  import Uvm

  const REWARD_SENDER: string := "SYSTEM"
  const MAX_REQUEST_ID_LENGTH: nat := 128
  const MAX_SALT_LENGTH: nat := 1024

  // ---- Transactions -----------------------------------------------------------------------

  // Payload fields are normalised; a missing or malformed text is "", a missing or malformed
  // number, hash or scope is None.
  datatype Data = Absent | Code(program: Uvm.Program) | Words(words: Uvm.WordMap) | Malformed

  datatype RequestIds = NoIds | NotAList | IdList(ids: seq<string>)

  datatype Metadata = NotAnObject | Metadata(words: Uvm.WordMap, requestIds: RequestIds)

  const NO_METADATA: Metadata := Metadata(map[], NoIds)

  datatype Payload =
    | TransferFunds
    | CommitHash(requestId: string, commitment: Option<nat>)
    | RevealSeed(requestId: string, seed: Option<int>, salt: Option<string>)
    | AuthorizeUse(contractAddress: string, codeHash: Option<string>, requestId: string, scope: Option<Uvm.Scope>)
    | DeployCode(contractAddress: string, program: Data, metadata: Metadata, deployedHash: string)
    | ExecuteCode(contractAddress: string, input: Data, gasLimit: Option<int>, gasPrice: Option<real>, inlineAuthorizations: bool)
    | OtherKind(kind: string)

  datatype Transaction = Transaction(
    sender: string,
    receiver: string,
    amount: real,
    fee: real,
    nonce: int,
    publicKey: Option<(int, int)>,
    signature: Option<string>,
    payload: Payload,
    timestamp: string,
    version: int
  )

  predicate IsReward(tx: Transaction) {
    tx.sender == REWARD_SENDER
  }

  const LEGACY_VERSION: int := 1

  // The words a signature is given for; in the legacy version they leave out kind and payload.
  datatype SignedWords =
    | LegacyWords(sender: string, receiver: string, amount: real, fee: real, nonce: int, timestamp: string)
    | TypedWords(version: int, payload: Payload, sender: string, receiver: string, amount: real, fee: real, nonce: int, timestamp: string)

  function WordsOf(tx: Transaction): SignedWords {
    if tx.version == LEGACY_VERSION then LegacyWords(tx.sender, tx.receiver, tx.amount, tx.fee, tx.nonce, tx.timestamp)
    else TypedWords(tx.version, tx.payload, tx.sender, tx.receiver, tx.amount, tx.fee, tx.nonce, tx.timestamp)
  }

  // The words a transaction is hashed by: those it is signed for, the key and the signature; a
  // missing signature reads like an empty one.
  datatype HashedWords = HashedWords(signed: SignedWords, key: Option<(int, int)>, signature: string)

  function HashedOf(tx: Transaction): HashedWords {
    HashedWords(WordsOf(tx), tx.publicKey, if tx.signature.Some? then tx.signature.value else "")
  }

  // The hashes and the signature check the ledger relies on, as arbitrary fixed functions of the
  // words they see; the check sees a key, a signature and the signed words.
  datatype Crypto = Crypto(
    hashTransaction: HashedWords -> string,
    addressOf: ((int, int)) -> string,
    signatureHolds: ((int, int), string, SignedWords) -> bool,
    commitmentOf: (string, string, int, string) -> nat,
    codeHash: (Data, Metadata) -> string,
    contractAddress: (string, int, string) -> string,
    sha256: int -> int,
    addressWord: string -> Option<int>
  )

  function IdOf(c: Crypto, tx: Transaction): string {
    c.hashTransaction(HashedOf(tx))
  }

  // ---- State ------------------------------------------------------------------------------

  datatype Authorization = Authorization(
    wallet: string, contractAddress: string, codeHash: string, requestId: string, scope: Uvm.Scope, authorizedAt: int)

  datatype Contract = Contract(deployer: string, codeHash: string, program: Uvm.Program, metadata: Metadata)

  datatype Receipt = Receipt(execution: Uvm.Execution, feeEscrowed: real, feePaid: real, feeRefunded: real)

  datatype State = State(
    balances: map<string, real>,
    nonces: map<string, int>,
    commitments: map<string, map<string, nat>>,
    revealed: map<string, map<string, Uvm.Reveal>>,
    authorizations: seq<Authorization>,
    contracts: map<string, Contract>,
    contractStorage: map<string, map<string, int>>,
    receipts: map<string, Receipt>,
    height: int
  )

  const EMPTY_STATE: State := State(map[], map[], map[], map[], [], map[], map[], map[], -1)

  datatype TxError =
    | RewardSigned | Unsigned | SenderIsNotTheKey | BadSignature
    | NegativeFee | RewardWithoutReceiver | RewardNotPositive
    | NoSender | WrongNonce(expected: int) | NoReceiver | UnexpectedReceiver | AmountNotPositive | AmountNotZero
    | BalanceTooLow | NoRequestId | RequestIdTooLong | BadCommitment | AlreadyCommitted
    | BadSeed | BadSalt | SaltTooLong | NotCommitted | AlreadyRevealed | SeedDoesNotMatch
    | NoContractAddress | ReceiverIsNotTheContract | BadCodeHash | CodeHashMismatch | BadScope
    | AlreadyDeployed | NoProgram | BadProgram | BadMetadata | AddressNotDerived | BadRequestIds
    | NegativeAmount | BadGasLimit | NegativeGasLimit | BadGasPrice | NegativeGasPrice | FeeBelowFuel
    | Undeployed | InlineAuthorizations | UnsupportedKind(kind: string)

  datatype Applied = Applied(state: State, feePaid: real)

  type Outcome = Result<Applied, TxError>

  // ---- Checks -----------------------------------------------------------------------------

  function AuthenticityError(c: Crypto, tx: Transaction): Option<TxError> {
    if IsReward(tx) then
      if tx.publicKey.Some? || tx.signature.Some? then Some(RewardSigned) else None
    else if tx.publicKey.None? || tx.signature.None? then Some(Unsigned)
    else if tx.sender != c.addressOf(tx.publicKey.value) then Some(SenderIsNotTheKey)
    else if !c.signatureHolds(tx.publicKey.value, tx.signature.value, WordsOf(tx)) then Some(BadSignature)
    else None
  }

  // The sender is the wallet, and its key has signed the words of the transaction.
  ghost predicate SignedBy(c: Crypto, tx: Transaction, wallet: string) {
    && tx.sender == wallet && tx.publicKey.Some? && tx.signature.Some? && c.addressOf(tx.publicKey.value) == wallet
    && c.signatureHolds(tx.publicKey.value, tx.signature.value, WordsOf(tx))
  }

  function RequestIdError(requestId: string): Option<TxError> {
    if requestId == "" then Some(NoRequestId)
    else if |requestId| > MAX_REQUEST_ID_LENGTH then Some(RequestIdTooLong)
    else None
  }

  function CommitError(tx: Transaction, s: State): Option<TxError>
    requires tx.payload.CommitHash?
  {
    if tx.receiver != "" then Some(UnexpectedReceiver)
    else if tx.amount != 0.0 then Some(AmountNotZero)
    else if RequestIdError(tx.payload.requestId).Some? then RequestIdError(tx.payload.requestId)
    else if tx.payload.commitment.None? then Some(BadCommitment)
    else if tx.sender in Get(s.commitments, tx.payload.requestId, map[]) then Some(AlreadyCommitted)
    else None
  }

  function RevealError(c: Crypto, tx: Transaction, s: State): Option<TxError>
    requires tx.payload.RevealSeed?
  {
    var p := tx.payload;
    if tx.receiver != "" then Some(UnexpectedReceiver)
    else if tx.amount != 0.0 then Some(AmountNotZero)
    else if RequestIdError(p.requestId).Some? then RequestIdError(p.requestId)
    else if p.seed.None? || !(0 <= p.seed.value < Uvm.WORD_MODULUS) then Some(BadSeed)
    else if p.salt.None? then Some(BadSalt)
    else if |p.salt.value| > MAX_SALT_LENGTH then Some(SaltTooLong)
    else if tx.sender !in Get(s.commitments, p.requestId, map[]) then Some(NotCommitted)
    else if tx.sender in Get(s.revealed, p.requestId, map[]) then Some(AlreadyRevealed)
    else if c.commitmentOf(tx.sender, p.requestId, p.seed.value, p.salt.value) != s.commitments[p.requestId][tx.sender]
    then Some(SeedDoesNotMatch)
    else None
  }

  function AuthorizeError(tx: Transaction, s: State): Option<TxError>
    requires tx.payload.AuthorizeUse?
  {
    var p := tx.payload;
    if tx.receiver == "" then Some(NoReceiver)
    else if tx.amount != 0.0 then Some(AmountNotZero)
    else if p.contractAddress == "" then Some(NoContractAddress)
    else if p.contractAddress != tx.receiver then Some(ReceiverIsNotTheContract)
    else if p.codeHash.None? then Some(BadCodeHash)
    else if p.contractAddress in s.contracts && s.contracts[p.contractAddress].codeHash != p.codeHash.value
    then Some(CodeHashMismatch)
    else if RequestIdError(p.requestId).Some? then RequestIdError(p.requestId)
    else if p.scope.None? then Some(BadScope)
    else None
  }

  predicate GoodRequestIds(ids: RequestIds) {
    ids.NoIds? || (ids.IdList? && forall i :: 0 <= i < |ids.ids| ==> RequestIdError(ids.ids[i]).None?)
  }

  function DeployError(c: Crypto, tx: Transaction, s: State): Option<TxError>
    requires tx.payload.DeployCode?
  {
    var p := tx.payload;
    if tx.receiver == "" then Some(NoReceiver)
    else if tx.amount != 0.0 then Some(AmountNotZero)
    else if p.contractAddress == "" then Some(NoContractAddress)
    else if p.contractAddress != tx.receiver then Some(ReceiverIsNotTheContract)
    else if p.contractAddress in s.contracts then Some(AlreadyDeployed)
    else if p.program.Absent? then Some(NoProgram)
    else if !p.program.Code? then Some(BadProgram)
    else if p.metadata.NotAnObject? then Some(BadMetadata)
    else if p.deployedHash != c.codeHash(p.program, p.metadata) then Some(CodeHashMismatch)
    else if p.contractAddress != c.contractAddress(tx.sender, tx.nonce, p.deployedHash) then Some(AddressNotDerived)
    else if !GoodRequestIds(p.metadata.requestIds) then Some(BadRequestIds)
    else None
  }

  // ---- Authorizations ---------------------------------------------------------------------

  predicate ScopeCovers(scope: Uvm.Scope, height: int) {
    && (scope.validFrom.Some? && scope.validUntil.Some? ==> scope.validFrom.value <= scope.validUntil.value)
    && (scope.validFrom.Some? ==> scope.validFrom.value <= height)
    && (scope.validUntil.Some? ==> height <= scope.validUntil.value)
  }

  predicate Grants(a: Authorization, contractAddress: string, codeHash: string, height: int) {
    && a.contractAddress == contractAddress && a.codeHash == codeHash && ScopeCovers(a.scope, height)
    && a.wallet != "" && a.requestId != ""
  }

  // Later authorizations replace earlier ones of the same wallet and request.
  function AuthorizationsFor(log: seq<Authorization>, contractAddress: string, codeHash: string, height: int): Uvm.AuthorizationIndex {
    if log == [] then map[] else
    var index := AuthorizationsFor(log[..|log| - 1], contractAddress, codeHash, height);
    var a := log[|log| - 1];
    if Grants(a, contractAddress, codeHash, height)
    then index[a.wallet := Get(index, a.wallet, map[])[a.requestId := a.scope]]
    else index
  }

  // ---- Effects ----------------------------------------------------------------------------

  function Charged(s: State, tx: Transaction, cost: real): State {
    s.(nonces := s.nonces[tx.sender := Get(s.nonces, tx.sender, 0) + 1],
       balances := s.balances[tx.sender := Bal(s.balances, tx.sender) - cost])
  }

  function Credited(balances: map<string, real>, account: string, amount: real): map<string, real> {
    balances[account := Bal(balances, account) + amount]
  }

  function Put<V>(table: map<string, map<string, V>>, request: string, wallet: string, v: V): map<string, map<string, V>> {
    table[request := Get(table, request, map[])[wallet := v]]
  }

  function Merged(balances: map<string, real>, changes: map<string, real>): map<string, real> {
    map a | a in balances.Keys + changes.Keys :: Bal(balances, a) + Bal(changes, a)
  }

  // A transaction of a kind that only pays its fee, once its own check has passed.
  function PayFee(s: State, tx: Transaction, error: Option<TxError>): Result<State, TxError> {
    if error.Some? then Failure(error.value)
    else if Bal(s.balances, tx.sender) < tx.fee then Failure(BalanceTooLow)
    else Success(Charged(s, tx, tx.fee))
  }

  function ApplyReward(s: State, tx: Transaction): Outcome {
    if tx.receiver == "" then Failure(RewardWithoutReceiver)
    else if tx.amount <= 0.0 then Failure(RewardNotPositive)
    else Success(Applied(s.(balances := Credited(s.balances, tx.receiver, tx.amount)), 0.0))
  }

  function ApplyTransfer(s: State, tx: Transaction): Outcome {
    if tx.receiver == "" then Failure(NoReceiver)
    else if tx.amount <= 0.0 then Failure(AmountNotPositive)
    else if Bal(s.balances, tx.sender) < tx.amount + tx.fee then Failure(BalanceTooLow)
    else
      var paid := Charged(s, tx, tx.amount + tx.fee);
      Success(Applied(paid.(balances := Credited(paid.balances, tx.receiver, tx.amount)), tx.fee))
  }

  function ApplyCommit(s: State, tx: Transaction): Outcome
    requires tx.payload.CommitHash?
  {
    var paid :- PayFee(s, tx, CommitError(tx, s));
    Success(Applied(paid.(commitments := Put(s.commitments, tx.payload.requestId, tx.sender, tx.payload.commitment.value)), tx.fee))
  }

  function ApplyReveal(c: Crypto, s: State, tx: Transaction): Outcome
    requires tx.payload.RevealSeed?
  {
    var p := tx.payload;
    var paid :- PayFee(s, tx, RevealError(c, tx, s));
    var entry := Uvm.Reveal(p.seed.value, p.salt.value, s.commitments[p.requestId][tx.sender]);
    Success(Applied(paid.(revealed := Put(s.revealed, p.requestId, tx.sender, entry)), tx.fee))
  }

  function ApplyAuthorize(s: State, tx: Transaction, height: int): Outcome
    requires tx.payload.AuthorizeUse?
  {
    var p := tx.payload;
    var paid :- PayFee(s, tx, AuthorizeError(tx, s));
    var entry := Authorization(tx.sender, p.contractAddress, p.codeHash.value, p.requestId, p.scope.value, height);
    Success(Applied(paid.(authorizations := s.authorizations + [entry]), tx.fee))
  }

  function ApplyDeploy(c: Crypto, s: State, tx: Transaction): Outcome
    requires tx.payload.DeployCode?
  {
    var p := tx.payload;
    var paid :- PayFee(s, tx, DeployError(c, tx, s));
    var contract := Contract(tx.sender, p.deployedHash, p.program.program, p.metadata);
    Success(Applied(paid.(contracts := s.contracts[p.contractAddress := contract],
                          contractStorage := s.contractStorage[p.contractAddress := Get(s.contractStorage, p.contractAddress, map[])]),
                    tx.fee))
  }

  function ExecuteError(s: State, tx: Transaction): Option<TxError>
    requires tx.payload.ExecuteCode?
  {
    var p := tx.payload;
    if tx.receiver == "" then Some(NoReceiver)
    else if tx.amount < 0.0 then Some(NegativeAmount)
    else if p.contractAddress == "" then Some(NoContractAddress)
    else if p.contractAddress != tx.receiver then Some(ReceiverIsNotTheContract)
    else if p.gasLimit.None? then Some(BadGasLimit)
    else if p.gasLimit.value < 0 then Some(NegativeGasLimit)
    else if p.gasPrice.None? then Some(BadGasPrice)
    else if p.gasPrice.value < 0.0 then Some(NegativeGasPrice)
    else if p.gasPrice.value > 0.0 && tx.fee < p.gasLimit.value as real * p.gasPrice.value then Some(FeeBelowFuel)
    else if Bal(s.balances, tx.sender) < tx.amount + tx.fee then Some(BalanceTooLow)
    else if tx.receiver !in s.contracts && p.input.Absent? then Some(Undeployed)
    else if p.inlineAuthorizations then Some(InlineAuthorizations)
    else None
  }

  // What runs: the deployed code, or code carried by the transaction itself.
  datatype Target = Target(source: Data, codeHash: string, metadata: Uvm.WordMap, input: Uvm.WordMap)

  function TargetOf(c: Crypto, s: State, tx: Transaction): Target
    requires tx.payload.ExecuteCode?
  {
    var p := tx.payload;
    if tx.receiver in s.contracts then
      var contract := s.contracts[tx.receiver];
      Target(Code(contract.program), contract.codeHash,
             if contract.metadata.Metadata? then contract.metadata.words else map[],
             if p.input.Words? then p.input.words else map[])
    else Target(p.input, c.codeHash(p.input, NO_METADATA), map[], map[])
  }

  // The sender has paid amount and fee, and the contract holds the amount.
  function EscrowedBalances(s: State, tx: Transaction): map<string, real> {
    var escrowed := s.balances[tx.sender := Bal(s.balances, tx.sender) - (tx.amount + tx.fee)];
    if tx.amount > 0.0 then Credited(escrowed, tx.receiver, tx.amount) else escrowed
  }

  function ExecutionContext(c: Crypto, s: State, tx: Transaction, target: Target, height: int): Uvm.Context {
    Uvm.Context(tx.sender, c.addressWord(tx.sender), tx.receiver, s.commitments, s.revealed,
                AuthorizationsFor(s.authorizations, tx.receiver, target.codeHash, height),
                target.metadata, target.input, height, c.sha256)
  }

  function Execution(c: Crypto, s: State, tx: Transaction, height: int): Uvm.Execution
    requires tx.payload.ExecuteCode? && ExecuteError(s, tx).None?
  {
    var target := TargetOf(c, s, tx);
    Uvm.Execute(if target.source.Code? then Some(target.source.program) else None,
                ExecutionContext(c, s, tx, target, height),
                tx.payload.gasLimit.value,
                Get(s.contractStorage, tx.receiver, map[]),
                EscrowedBalances(s, tx))
  }

  function FuelFee(tx: Transaction, gasUsed: nat): real
    requires tx.payload.ExecuteCode? && tx.payload.gasPrice.Some?
  {
    if tx.payload.gasPrice.value > 0.0 then gasUsed as real * tx.payload.gasPrice.value else tx.fee
  }

  // A successful run moves the amount, the run's own transfers and the contract's storage.
  function Settled(paid: State, tx: Transaction, e: Uvm.Execution): State {
    var sent := Credited(paid.balances, tx.sender, -tx.amount);
    var received := if tx.amount > 0.0 then Credited(sent, tx.receiver, tx.amount) else sent;
    paid.(balances := Merged(received, e.balanceChanges),
          contractStorage := paid.contractStorage[tx.receiver := e.storage])
  }

  function Executed(c: Crypto, s: State, tx: Transaction, e: Uvm.Execution, feePaid: real): State {
    var paid := Charged(s, tx, feePaid);
    var settled := if e.success then Settled(paid, tx, e) else paid;
    settled.(receipts := s.receipts[IdOf(c, tx) := Receipt(e, tx.fee, feePaid, tx.fee - feePaid)])
  }

  function ApplyExecute(c: Crypto, s: State, tx: Transaction, height: int): Outcome
    requires tx.payload.ExecuteCode?
  {
    var error := ExecuteError(s, tx);
    if error.Some? then Failure(error.value) else
    var e := Execution(c, s, tx, height);
    var feePaid := FuelFee(tx, e.gasUsed);
    Success(Applied(Executed(c, s, tx, e, feePaid), feePaid))
  }

  function Apply(c: Crypto, s: State, tx: Transaction, height: int): Outcome {
    var unauthentic := AuthenticityError(c, tx);
    if unauthentic.Some? then Failure(unauthentic.value)
    else if tx.fee < 0.0 then Failure(NegativeFee)
    else if IsReward(tx) then ApplyReward(s, tx)
    else if tx.sender == "" then Failure(NoSender)
    else if tx.nonce != Get(s.nonces, tx.sender, 0) then Failure(WrongNonce(Get(s.nonces, tx.sender, 0)))
    else match tx.payload
      case TransferFunds => ApplyTransfer(s, tx)
      case CommitHash(_, _) => ApplyCommit(s, tx)
      case RevealSeed(_, _, _) => ApplyReveal(c, s, tx)
      case AuthorizeUse(_, _, _, _) => ApplyAuthorize(s, tx, height)
      case DeployCode(_, _, _, _) => ApplyDeploy(c, s, tx)
      case ExecuteCode(_, _, _, _, _) => ApplyExecute(c, s, tx, height)
      case OtherKind(kind) => Failure(UnsupportedKind(kind))
  }

  // ---- Sequences of transactions ----------------------------------------------------------

  // Applying transactions in order, adding up the fees of those that pay one.
  function ApplyAll(c: Crypto, s: State, txs: seq<Transaction>, height: int): Outcome {
    if txs == [] then Success(Applied(s, 0.0)) else
    var before :- ApplyAll(c, s, txs[..|txs| - 1], height);
    var last :- Apply(c, before.state, txs[|txs| - 1], height);
    Success(Applied(last.state, before.feePaid + last.feePaid))
  }
}

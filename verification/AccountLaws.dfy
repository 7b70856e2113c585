/** Which transactions are accepted, and what each kind moves and records, account by account and
    over whole blocks. */
module AccountLaws {
  import opened Base
  import opened Ledger
  import opened LedgerTheorems
  import opened LedgerAuthority
  import opened Blocks
  import opened BlockTheorems
  import Uvm

  // ---- What is accepted -------------------------------------------------------------------

  predicate Bounded(requestId: string) {
    1 <= |requestId| <= 128
  }

  // The wallet has the fee, and neither names a receiver nor sends anything.
  predicate OnlyPays(s: State, tx: Transaction) {
    tx.receiver == "" && tx.amount == 0.0 && tx.fee <= Bal(s.balances, tx.sender)
  }

  // The transaction names one address as receiver and as contract.
  predicate Names(tx: Transaction, contractAddress: string) {
    contractAddress != "" && tx.receiver == contractAddress
  }

  ghost predicate AdmissibleKind(c: Crypto, s: State, tx: Transaction) {
    match tx.payload
    case TransferFunds =>
      tx.receiver != "" && tx.amount > 0.0 && tx.amount + tx.fee <= Bal(s.balances, tx.sender)
    case CommitHash(requestId, commitment) =>
      OnlyPays(s, tx) && Bounded(requestId) && commitment.Some? && CommitmentIn(s, requestId, tx.sender).None?
    case RevealSeed(requestId, seed, salt) =>
      && OnlyPays(s, tx) && Bounded(requestId) && seed.Some? && salt.Some? && |salt.value| <= 1024
      && 0 <= seed.value < Uvm.WORD_MODULUS
      && CommitmentIn(s, requestId, tx.sender) == Some(c.commitmentOf(tx.sender, requestId, seed.value, salt.value))
      && RevealIn(s, requestId, tx.sender).None?
    case AuthorizeUse(contractAddress, codeHash, requestId, scope) =>
      && Names(tx, contractAddress) && tx.amount == 0.0 && tx.fee <= Bal(s.balances, tx.sender)
      && codeHash.Some? && scope.Some? && Bounded(requestId)
      && (contractAddress in s.contracts ==> s.contracts[contractAddress].codeHash == codeHash.value)
    case DeployCode(contractAddress, program, metadata, deployedHash) =>
      && Names(tx, contractAddress) && tx.amount == 0.0 && tx.fee <= Bal(s.balances, tx.sender)
      && contractAddress !in s.contracts && program.Code? && metadata.Metadata?
      && deployedHash == c.codeHash(program, metadata) && contractAddress == c.contractAddress(tx.sender, tx.nonce, deployedHash)
      && !metadata.requestIds.NotAList?
      && (metadata.requestIds.IdList? ==> forall i :: 0 <= i < |metadata.requestIds.ids| ==> Bounded(metadata.requestIds.ids[i]))
    case ExecuteCode(contractAddress, input, gasLimit, gasPrice, inlineAuthorizations) =>
      && Names(tx, contractAddress) && 0.0 <= tx.amount && tx.amount + tx.fee <= Bal(s.balances, tx.sender)
      && gasLimit.Some? && 0 <= gasLimit.value && gasPrice.Some? && 0.0 <= gasPrice.value
      && (gasPrice.value > 0.0 ==> gasLimit.value as real * gasPrice.value <= tx.fee)
      && (contractAddress in s.contracts || !input.Absent?) && !inlineAuthorizations
    case OtherKind(_) => false
  }

  ghost predicate Admissible(c: Crypto, s: State, tx: Transaction) {
    && 0.0 <= tx.fee
    && if tx.sender == "SYSTEM" then tx.publicKey.None? && tx.signature.None? && tx.receiver != "" && tx.amount > 0.0
       else tx.sender != "" && SignedBy(c, tx, tx.sender) && tx.nonce == NonceOf(s, tx.sender) && AdmissibleKind(c, s, tx)
  }

  lemma PayingKinds(c: Crypto, s: State, tx: Transaction, height: int)
    ensures tx.payload.CommitHash? ==> (ApplyCommit(s, tx).Success? <==> AdmissibleKind(c, s, tx))
    ensures tx.payload.RevealSeed? ==> (ApplyReveal(c, s, tx).Success? <==> AdmissibleKind(c, s, tx))
    ensures tx.payload.AuthorizeUse? ==> (ApplyAuthorize(s, tx, height).Success? <==> AdmissibleKind(c, s, tx))
  {
    hide Charged, Put, Bal;
  }

  lemma DeployKind(c: Crypto, s: State, tx: Transaction)
    requires tx.payload.DeployCode?
    ensures ApplyDeploy(c, s, tx).Success? <==> AdmissibleKind(c, s, tx)
  {
    hide Charged, Bal;
  }

  lemma ExecuteKind(c: Crypto, s: State, tx: Transaction, height: int)
    requires tx.payload.ExecuteCode?
    ensures ApplyExecute(c, s, tx, height).Success? <==> AdmissibleKind(c, s, tx)
  {
    hide Execution, Executed, FuelFee, Bal;
  }

  // A transaction is accepted exactly when it is admissible.
  lemma AcceptedExactly(c: Crypto, s: State, tx: Transaction, height: int)
    ensures Apply(c, s, tx, height).Success? <==> Admissible(c, s, tx)
  {
    hide AdmissibleKind, ApplyCommit, ApplyReveal, ApplyAuthorize, ApplyDeploy, ApplyExecute, Charged, Credited, Bal;
    if tx.payload.DeployCode? {
      DeployKind(c, s, tx);
    } else if tx.payload.ExecuteCode? {
      ExecuteKind(c, s, tx, height);
    } else if tx.payload.TransferFunds? || tx.payload.OtherKind? {
      PlainKinds(c, s, tx);
    } else {
      PayingKinds(c, s, tx, height);
    }
  }

  lemma PlainKinds(c: Crypto, s: State, tx: Transaction)
    ensures tx.payload.TransferFunds? ==> (ApplyTransfer(s, tx).Success? <==> AdmissibleKind(c, s, tx))
    ensures tx.payload.OtherKind? ==> !AdmissibleKind(c, s, tx)
  {
    hide Charged, Credited, Bal;
  }

  // ---- What it moves ----------------------------------------------------------------------

  // An admissible run has nothing against it.
  lemma AdmissibleRuns(s: State, tx: Transaction, c: Crypto)
    ensures !IsReward(tx) && tx.payload.ExecuteCode? && Admissible(c, s, tx) ==> ExecuteError(s, tx).None?
  {
    hide Bal, SignedBy;
  }

  function To(account: string, other: string, amount: real): real {
    if account == other then amount else 0.0
  }

  // What the run of an admissible call reports.
  ghost function RunOf(c: Crypto, s: State, tx: Transaction, height: int): Uvm.Execution
    requires Admissible(c, s, tx) && !IsReward(tx) && tx.payload.ExecuteCode?
  {
    AdmissibleRuns(s, tx, c);
    Execution(c, s, tx, height)
  }

  // The fee a transaction pays: nothing for a reward, what the run used of it when there is a gas
  // price, and otherwise all of it.
  ghost function FeeOf(c: Crypto, s: State, tx: Transaction, height: int): real
    requires Admissible(c, s, tx)
  {
    if IsReward(tx) then 0.0
    else if tx.payload.ExecuteCode? && tx.payload.gasPrice.value > 0.0
    then RunOf(c, s, tx, height).gasUsed as real * tx.payload.gasPrice.value
    else tx.fee
  }

  // What a transaction changes of an account: the sender pays the fee, a transfer moves the amount
  // from sender to receiver, a successful run moves it too and makes its own changes, and a reward
  // comes from nowhere.
  ghost function Change(c: Crypto, s: State, tx: Transaction, height: int, account: string): real
    requires Admissible(c, s, tx)
  {
    if IsReward(tx) then To(account, tx.receiver, tx.amount)
    else
      var moved := To(account, tx.receiver, tx.amount) - To(account, tx.sender, tx.amount);
      var fee := To(account, tx.sender, FeeOf(c, s, tx, height));
      if tx.payload.TransferFunds? then moved - fee
      else if tx.payload.ExecuteCode? && RunOf(c, s, tx, height).success
      then moved + Bal(RunOf(c, s, tx, height).balanceChanges, account) - fee
      else -fee
  }

  lemma RunPays(c: Crypto, s: State, tx: Transaction, height: int)
    requires Admissible(c, s, tx) && !IsReward(tx) && tx.payload.ExecuteCode? && ApplyExecute(c, s, tx, height).Success?
    ensures tx.amount >= 0.0 && FeeOf(c, s, tx, height) == ApplyExecute(c, s, tx, height).value.feePaid
    ensures ApplyExecute(c, s, tx, height).value.state == Executed(c, s, tx, RunOf(c, s, tx, height), FeeOf(c, s, tx, height))
  {
    hide Executed, Execution, Bal, Admissible;
    AdmissibleIsNotNegative(c, s, tx);
  }

  lemma RunMoves(c: Crypto, s: State, tx: Transaction, height: int, account: string)
    requires Admissible(c, s, tx) && !IsReward(tx) && tx.payload.ExecuteCode? && ApplyExecute(c, s, tx, height).Success?
    ensures var r := ApplyExecute(c, s, tx, height).value;
            && r.feePaid == FeeOf(c, s, tx, height)
            && Bal(r.state.balances, account) == Bal(s.balances, account) + Change(c, s, tx, height, account)
  {
    hide Executed, ApplyExecute, RunOf, FeeOf, Bal, Admissible;
    RunPays(c, s, tx, height);
    ExecutedBalances(c, s, tx, RunOf(c, s, tx, height), FeeOf(c, s, tx, height));
  }

  lemma AdmissibleIsNotNegative(c: Crypto, s: State, tx: Transaction)
    requires Admissible(c, s, tx) && !IsReward(tx) && tx.payload.ExecuteCode?
    ensures tx.amount >= 0.0
  {
    hide Bal, SignedBy;
  }

  lemma OthersMove(c: Crypto, s: State, tx: Transaction, height: int, account: string)
    requires Admissible(c, s, tx) && Apply(c, s, tx, height).Success? && (IsReward(tx) || !tx.payload.ExecuteCode?)
    ensures var r := Apply(c, s, tx, height).value;
            && r.feePaid == FeeOf(c, s, tx, height)
            && Bal(r.state.balances, account) == Bal(s.balances, account) + Change(c, s, tx, height, account)
  {
    hide Charged, Credited, Bal, AuthenticityError, CommitError, RevealError, AuthorizeError, DeployError, Admissible, Put;
    if IsReward(tx) {
      CreditMoves(s.balances, tx.receiver, tx.amount);
    } else {
      var cost := if tx.payload.TransferFunds? then tx.amount + tx.fee else tx.fee;
      ChargeIsCredit(s, tx, cost);
      CreditMoves(s.balances, tx.sender, -cost);
      CreditMoves(Charged(s, tx, cost).balances, tx.receiver, tx.amount);
    }
  }

  // Every account afterwards holds what it held before and what the transaction changes of it.
  lemma BalancesMove(c: Crypto, s: State, tx: Transaction, height: int)
    requires Apply(c, s, tx, height).Success?
    ensures Admissible(c, s, tx) && Apply(c, s, tx, height).value.feePaid == FeeOf(c, s, tx, height)
    ensures forall a :: Bal(Apply(c, s, tx, height).value.state.balances, a) == Bal(s.balances, a) + Change(c, s, tx, height, a)
  {
    AcceptedExactly(c, s, tx, height);
    hide Bal, Change, FeeOf, Admissible, ApplyExecute, ApplyReward, ApplyTransfer, ApplyCommit, ApplyReveal, ApplyAuthorize, ApplyDeploy;
    forall a
      ensures Apply(c, s, tx, height).value.feePaid == FeeOf(c, s, tx, height)
      ensures Bal(Apply(c, s, tx, height).value.state.balances, a) == Bal(s.balances, a) + Change(c, s, tx, height, a)
    {
      if !IsReward(tx) && tx.payload.ExecuteCode? {
        RunMoves(c, s, tx, height, a);
      } else {
        OthersMove(c, s, tx, height, a);
      }
    }
    assert Bal(Apply(c, s, tx, height).value.state.balances, "") == Bal(s.balances, "") + Change(c, s, tx, height, "");
  }

  // A transfer takes amount and fee from its sender and brings the amount to its receiver.
  lemma TransfersArrive(c: Crypto, s: State, tx: Transaction, height: int, account: string)
    requires Apply(c, s, tx, height).Success? && !IsReward(tx) && tx.payload.TransferFunds?
    ensures Bal(Apply(c, s, tx, height).value.state.balances, account)
         == Bal(s.balances, account) - (if account == tx.sender then tx.amount + tx.fee else 0.0) + (if account == tx.receiver then tx.amount else 0.0)
  {
    hide Bal, Apply, Admissible;
    BalancesMove(c, s, tx, height);
  }

  // ---- Blocks -----------------------------------------------------------------------------

  // What the transactions of a sequence change of an account, each in its own turn.
  ghost function TotalChange(c: Crypto, s: State, txs: seq<Transaction>, height: int, account: string): real
    requires ApplyAll(c, s, txs, height).Success?
  {
    if txs == [] then 0.0 else
    var front, last := txs[..|txs| - 1], txs[|txs| - 1];
    var before := ApplyAll(c, s, front, height).value.state;
    AcceptedExactly(c, before, last, height);
    TotalChange(c, s, front, height, account) + Change(c, before, last, height, account)
  }

  lemma {:induction false} SequenceMoves(c: Crypto, s: State, txs: seq<Transaction>, height: int, account: string)
    requires ApplyAll(c, s, txs, height).Success?
    ensures Bal(ApplyAll(c, s, txs, height).value.state.balances, account) == Bal(s.balances, account) + TotalChange(c, s, txs, height, account)
  {
    hide Apply, Bal, Change, Admissible;
    if txs != [] {
      var front, last := txs[..|txs| - 1], txs[|txs| - 1];
      SequenceMoves(c, s, front, height, account);
      BalancesMove(c, ApplyAll(c, s, front, height).value.state, last, height);
    }
  }

  // Over a block every account gains what the block's transactions change of it, and nothing else.
  lemma BlockMoves(r: Rules, b: Block, parent: State, account: string)
    requires RewardStructureError(b).None? && SlowChild(r, b, parent).Success?
    ensures ApplyAll(r.crypto, parent.(height := b.id), b.transactions, b.id).Success?
    ensures Bal(SlowChild(r, b, parent).value.balances, account)
         == Bal(parent.balances, account) + TotalChange(r.crypto, parent.(height := b.id), b.transactions, b.id, account)
  {
    hide ApplyAll, Bal, TotalChange, RewardAmountError;
    SequenceMoves(r.crypto, parent.(height := b.id), b.transactions, b.id, account);
  }

  // ---- What it records --------------------------------------------------------------------

  // Authorizations, contracts and receipts change only by their own kinds, and by what these say.
  lemma RecordsMove(c: Crypto, s: State, tx: Transaction, height: int)
    requires Apply(c, s, tx, height).Success?
    ensures Admissible(c, s, tx)
    ensures var s', p, user := Apply(c, s, tx, height).value.state, tx.payload, !IsReward(tx);
            && s'.authorizations == s.authorizations
                 + (if user && p.AuthorizeUse?
                    then [Authorization(tx.sender, p.contractAddress, p.codeHash.value, p.requestId, p.scope.value, height)] else [])
            && (s'.contracts == if user && p.DeployCode?
                                then s.contracts[p.contractAddress := Contract(tx.sender, p.deployedHash, p.program.program, p.metadata)]
                                else s.contracts)
            && (s'.receipts == if user && p.ExecuteCode?
                               then s.receipts[IdOf(c, tx) := Receipt(RunOf(c, s, tx, height), tx.fee, FeeOf(c, s, tx, height),
                                                                      tx.fee - FeeOf(c, s, tx, height))]
                               else s.receipts)
  {
    hide Execution, FuelFee, Executed, AuthenticityError, ApplyCommit, ApplyReveal, ApplyAuthorize, ApplyDeploy, Bal, Credited, Admissible, IdOf;
    BalancesMove(c, s, tx, height);
    if IsReward(tx) || tx.payload.TransferFunds? {
      assert s.authorizations + [] == s.authorizations;
    } else if tx.payload.ExecuteCode? {
      assert s.authorizations + [] == s.authorizations;
      var e := Execution(c, s, tx, height);
      ExecutedRecords(c, s, tx, e, FuelFee(tx, e.gasUsed));
    } else if tx.payload.AuthorizeUse? {
      AuthorizeRecords(s, tx, height);
    } else {
      assert s.authorizations + [] == s.authorizations;
      if tx.payload.DeployCode? {
        DeployRecords(c, s, tx);
      } else {
        PromisesRecord(c, s, tx);
      }
    }
  }

  // Commitments and reveals change only by their own kinds: the sender's commitment is recorded as it
  // was sent, and its reveal with seed, salt and the commitment they open.
  lemma PromisesMove(c: Crypto, s: State, tx: Transaction, height: int, request: string, wallet: string)
    requires Apply(c, s, tx, height).Success?
    ensures var s', p, own := Apply(c, s, tx, height).value.state, tx.payload, !IsReward(tx) && wallet == tx.sender;
            && CommitmentIn(s', request, wallet) ==
                 (if own && p.CommitHash? && request == p.requestId then p.commitment else CommitmentIn(s, request, wallet))
            && (if own && p.RevealSeed? && request == p.requestId
                then && p.seed.Some? && p.salt.Some? && CommitmentIn(s, request, wallet).Some?
                     && RevealIn(s', request, wallet) == Some(Uvm.Reveal(p.seed.value, p.salt.value, CommitmentIn(s, request, wallet).value))
                else RevealIn(s', request, wallet) == RevealIn(s, request, wallet))
  {
    hide AuthenticityError, Execution, FuelFee, Executed, ApplyCommit, ApplyReveal, ApplyAuthorize, ApplyDeploy, Bal, Credited, CommitmentIn, RevealIn;
    if IsReward(tx) || tx.payload.TransferFunds? {
      SamePromises(s, Apply(c, s, tx, height).value.state, request, wallet);
    } else if tx.payload.ExecuteCode? {
      var e := Execution(c, s, tx, height);
      ExecutedPromises(c, s, tx, e, FuelFee(tx, e.gasUsed));
      SamePromises(s, Apply(c, s, tx, height).value.state, request, wallet);
    } else {
      RecordedKind(c, s, tx, height);
      if tx.payload.CommitHash? {
        CommitPromises(s, tx, request, wallet);
      } else if tx.payload.RevealSeed? {
        RevealPromises(c, s, tx, request, wallet);
      } else {
        OtherPromises(c, s, tx, height);
        SamePromises(s, Apply(c, s, tx, height).value.state, request, wallet);
      }
    }
  }

  lemma SamePromises(s: State, s': State, request: string, wallet: string)
    requires s'.commitments == s.commitments && s'.revealed == s.revealed
    ensures CommitmentIn(s', request, wallet) == CommitmentIn(s, request, wallet)
    ensures RevealIn(s', request, wallet) == RevealIn(s, request, wallet)
  {
  }

  lemma ExecutedPromises(c: Crypto, s: State, tx: Transaction, e: Uvm.Execution, feePaid: real)
    ensures var s' := Executed(c, s, tx, e, feePaid); s'.commitments == s.commitments && s'.revealed == s.revealed
  {
    hide Credited, Merged, Bal, IdOf;
  }

  lemma OtherPromises(c: Crypto, s: State, tx: Transaction, height: int)
    ensures tx.payload.AuthorizeUse? && ApplyAuthorize(s, tx, height).Success? ==>
              var s' := ApplyAuthorize(s, tx, height).value.state; s'.commitments == s.commitments && s'.revealed == s.revealed
    ensures tx.payload.DeployCode? && ApplyDeploy(c, s, tx).Success? ==>
              var s' := ApplyDeploy(c, s, tx).value.state; s'.commitments == s.commitments && s'.revealed == s.revealed
  {
    hide Bal, Get, AuthorizeError, DeployError;
  }

  lemma CommitPromises(s: State, tx: Transaction, request: string, wallet: string)
    requires tx.payload.CommitHash? && ApplyCommit(s, tx).Success?
    ensures var s', p := ApplyCommit(s, tx).value.state, tx.payload;
            && CommitmentIn(s', request, wallet) ==
                 (if wallet == tx.sender && request == p.requestId then p.commitment else CommitmentIn(s, request, wallet))
            && RevealIn(s', request, wallet) == RevealIn(s, request, wallet)
  {
    hide Bal, Put;
    PutKeepsOthers(s.commitments, tx.payload.requestId, tx.sender, tx.payload.commitment.value);
  }

  lemma RevealPromises(c: Crypto, s: State, tx: Transaction, request: string, wallet: string)
    requires tx.payload.RevealSeed? && ApplyReveal(c, s, tx).Success?
    ensures var s', p := ApplyReveal(c, s, tx).value.state, tx.payload;
            && CommitmentIn(s', request, wallet) == CommitmentIn(s, request, wallet)
            && (if wallet == tx.sender && request == p.requestId
                then && p.seed.Some? && p.salt.Some? && CommitmentIn(s, request, wallet).Some?
                     && RevealIn(s', request, wallet) == Some(Uvm.Reveal(p.seed.value, p.salt.value, CommitmentIn(s, request, wallet).value))
                else RevealIn(s', request, wallet) == RevealIn(s, request, wallet))
  {
    hide Bal, Put;
    var p := tx.payload;
    PutKeepsOthers(s.revealed, p.requestId, tx.sender, Uvm.Reveal(p.seed.value, p.salt.value, s.commitments[p.requestId][tx.sender]));
  }

  lemma ExecutedRecords(c: Crypto, s: State, tx: Transaction, e: Uvm.Execution, feePaid: real)
    ensures var s' := Executed(c, s, tx, e, feePaid);
            && s'.authorizations == s.authorizations && s'.contracts == s.contracts
            && s'.receipts == s.receipts[IdOf(c, tx) := Receipt(e, tx.fee, feePaid, tx.fee - feePaid)]
  {
    hide Credited, Merged, Bal, IdOf;
  }

  // A commitment or a reveal changes none of the other records.
  lemma PromisesRecord(c: Crypto, s: State, tx: Transaction)
    ensures tx.payload.CommitHash? && ApplyCommit(s, tx).Success? ==>
              var s' := ApplyCommit(s, tx).value.state;
              s'.authorizations == s.authorizations && s'.contracts == s.contracts && s'.receipts == s.receipts
    ensures tx.payload.RevealSeed? && ApplyReveal(c, s, tx).Success? ==>
              var s' := ApplyReveal(c, s, tx).value.state;
              s'.authorizations == s.authorizations && s'.contracts == s.contracts && s'.receipts == s.receipts
  {
    hide Bal, Put, CommitError, Get;
  }

  lemma AuthorizeRecords(s: State, tx: Transaction, height: int)
    requires tx.payload.AuthorizeUse? && ApplyAuthorize(s, tx, height).Success?
    ensures var s', p := ApplyAuthorize(s, tx, height).value.state, tx.payload;
            && p.codeHash.Some? && p.scope.Some? && s'.contracts == s.contracts && s'.receipts == s.receipts
            && s'.authorizations == s.authorizations
                 + [Authorization(tx.sender, p.contractAddress, p.codeHash.value, p.requestId, p.scope.value, height)]
  {
    hide Bal, Get;
  }

  lemma DeployRecords(c: Crypto, s: State, tx: Transaction)
    requires tx.payload.DeployCode? && ApplyDeploy(c, s, tx).Success?
    ensures var s', p := ApplyDeploy(c, s, tx).value.state, tx.payload;
            && p.program.Code? && s'.authorizations == s.authorizations && s'.receipts == s.receipts
            && s'.contracts == s.contracts[p.contractAddress := Contract(tx.sender, p.deployedHash, p.program.program, p.metadata)]
  {
    hide Bal, Get;
  }
}

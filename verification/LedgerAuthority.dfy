/** Who can be made to pay, and what the records of a chain can hold. */
module LedgerAuthority {
  import opened Base
  import opened Ledger
  import opened LedgerTheorems
  import Uvm
  import T = UvmTheorems

  // ---- Who pays ---------------------------------------------------------------------------

  // An account that a transfer log leaves worse off is the source of one of its transfers.
  lemma {:induction false} LossHasASource(log: seq<Uvm.Transfer>, account: string)
    requires T.Net(log, account) < 0.0 && forall t :: t in log ==> t.amount > 0
    ensures exists i :: 0 <= i < |log| && log[i].source == account
  {
    var front, last := log[..|log| - 1], log[|log| - 1];
    if last.source == account {
      assert log[|log| - 1].source == account;
    } else {
      assert last in log;
      LossHasASource(front, account);
      var i :| 0 <= i < |front| && front[i].source == account;
      assert log[i].source == account;
    }
  }

  // The account has put an authorization for this contract and code on record that covers the height.
  ghost predicate HasAuthorized(c: Crypto, s: State, tx: Transaction, account: string, height: int)
    requires tx.payload.ExecuteCode?
  {
    exists request :: OnRecord(s.authorizations, account, request, tx.receiver, TargetOf(c, s, tx).codeHash, height)
  }

  lemma RunCostsOthersOnlyByAuthority(c: Crypto, s: State, tx: Transaction, height: int, account: string)
    requires NonNegative(s.balances) && tx.payload.ExecuteCode? && ExecuteError(s, tx).None?
    requires Bal(Execution(c, s, tx, height).balanceChanges, account) < 0.0 && account != tx.sender && account != tx.receiver
    ensures HasAuthorized(c, s, tx, account, height)
  {
    hide Bal, EscrowedBalances, Uvm.Execute, TargetOf;
    EscrowIsCovered(s, tx);
    var target := TargetOf(c, s, tx);
    var ctx := ExecutionContext(c, s, tx, target, height);
    T.ExecutionIsSafe(if target.source.Code? then Some(target.source.program) else None, ctx, tx.payload.gasLimit.value,
                      Get(s.contractStorage, tx.receiver, map[]), EscrowedBalances(s, tx));
    var e := Execution(c, s, tx, height);
    forall t | t in e.transfers
      ensures t.amount > 0
    {
      assert T.Permitted(ctx, t);
    }
    LossHasASource(e.transfers, account);
    var i :| 0 <= i < |e.transfers| && e.transfers[i].source == account;
    TransfersAreAuthorised(c, s, tx, height);
    assert e.transfers[i] in e.transfers;
    assert OnRecord(s.authorizations, account, e.transfers[i].requestId, tx.receiver, target.codeHash, height);
  }

  lemma ExecuteCostsOthersOnlyByAuthority(c: Crypto, s: State, tx: Transaction, height: int, account: string)
    requires NonNegative(s.balances) && tx.payload.ExecuteCode? && ApplyExecute(c, s, tx, height).Success? && tx.fee >= 0.0
    requires Bal(ApplyExecute(c, s, tx, height).value.state.balances, account) < Bal(s.balances, account)
    ensures account == tx.sender || account == tx.receiver || HasAuthorized(c, s, tx, account, height)
  {
    hide Bal, Executed, Execution, FuelFee, HasAuthorized;
    var e := Execution(c, s, tx, height);
    ExecutedBalances(c, s, tx, e, FuelFee(tx, e.gasUsed));
    if account != tx.sender && account != tx.receiver && Bal(e.balanceChanges, account) < 0.0 {
      RunCostsOthersOnlyByAuthority(c, s, tx, height, account);
    }
  }

  // The transaction runs a program of its own at an address without a contract, and the run costs
  // that address more than the transaction brings.
  ghost predicate InlineRunCosts(c: Crypto, s: State, tx: Transaction, height: int, account: string) {
    && tx.payload.ExecuteCode? && tx.receiver == account && account !in s.contracts && tx.payload.input.Code?
    && ExecuteError(s, tx).None?
    && var e := Execution(c, s, tx, height); e.success && Bal(e.balanceChanges, account) + tx.amount < 0.0
  }

  // A transaction can only make poorer its sender, who holds the key and has signed it, the
  // contract it runs, a wallet that has authorised that contract and code on record, or the
  // address at which it runs a program of its own; rewards make nobody poorer.
  lemma NobodyElsePays(c: Crypto, s: State, tx: Transaction, height: int, account: string)
    requires NonNegative(s.balances) && Apply(c, s, tx, height).Success?
    requires Bal(Apply(c, s, tx, height).value.state.balances, account) < Bal(s.balances, account)
    ensures !IsReward(tx) && SignedBy(c, tx, tx.sender)
    ensures || account == tx.sender
            || (tx.payload.ExecuteCode? && account == tx.receiver && account in s.contracts)
            || (tx.payload.ExecuteCode? && HasAuthorized(c, s, tx, account, height))
            || InlineRunCosts(c, s, tx, height, account)
  {
    hide Bal, Charged, Credited, ApplyExecute, CommitError, RevealError, AuthorizeError, DeployError, HasAuthorized, InlineRunCosts;
    if IsReward(tx) {
      CreditMoves(s.balances, tx.receiver, tx.amount);
    } else if tx.payload.ExecuteCode? {
      ExecuteCostsOthersOnlyByAuthority(c, s, tx, height, account);
      if account == tx.receiver && account != tx.sender && account !in s.contracts {
        ExecuteAtWallet(c, s, tx, height);
      }
    } else if account != tx.sender {
      OtherKindsCostNobodyElse(c, s, tx, height, account);
    }
  }

  lemma OtherKindsCostNobodyElse(c: Crypto, s: State, tx: Transaction, height: int, account: string)
    requires Apply(c, s, tx, height).Success? && !IsReward(tx) && !tx.payload.ExecuteCode? && account != tx.sender
    ensures Bal(Apply(c, s, tx, height).value.state.balances, account) >= Bal(s.balances, account)
  {
    hide Bal, Charged, Credited, CommitError, RevealError, AuthorizeError, DeployError;
    var cost := if tx.payload.TransferFunds? then tx.amount + tx.fee else tx.fee;
    ChargeIsCredit(s, tx, cost);
    CreditMoves(s.balances, tx.sender, -cost);
    CreditMoves(Charged(s, tx, cost).balances, tx.receiver, tx.amount);
  }

  // A run at an address without a contract that is not the sender: it loses exactly when the
  // program the transaction carries costs it more than it gets.
  lemma ExecuteAtWallet(c: Crypto, s: State, tx: Transaction, height: int)
    requires tx.payload.ExecuteCode? && ApplyExecute(c, s, tx, height).Success? && tx.receiver != tx.sender
    requires tx.receiver !in s.contracts
    ensures Bal(ApplyExecute(c, s, tx, height).value.state.balances, tx.receiver) < Bal(s.balances, tx.receiver)
        <==> InlineRunCosts(c, s, tx, height, tx.receiver)
  {
    hide Bal, Executed, FuelFee, Uvm.Run;
    var e := Execution(c, s, tx, height);
    ExecutedBalances(c, s, tx, e, FuelFee(tx, e.gasUsed));
  }

  // An account that is neither sender nor deployed contract and has authorised nothing is made
  // poorer exactly by a run of a program the transaction carries, with the account as receiver,
  // whose changes cost it more than the transaction brings.
  lemma OnlyInlineRunsCostStrangers(c: Crypto, s: State, tx: Transaction, height: int, account: string)
    requires NonNegative(s.balances) && Apply(c, s, tx, height).Success?
    requires account != tx.sender && account !in s.contracts
    requires forall i :: 0 <= i < |s.authorizations| ==> s.authorizations[i].wallet != account
    ensures Bal(Apply(c, s, tx, height).value.state.balances, account) < Bal(s.balances, account)
        <==> !IsReward(tx) && InlineRunCosts(c, s, tx, height, account)
  {
    hide Bal, ApplyExecute, InlineRunCosts, CommitError, RevealError, AuthorizeError, DeployError;
    if Bal(Apply(c, s, tx, height).value.state.balances, account) < Bal(s.balances, account) {
      NobodyElsePays(c, s, tx, height, account);
    } else if !IsReward(tx) && InlineRunCosts(c, s, tx, height, account) {
      InlineRunsAreExecutes(c, s, tx, height, account);
      ExecuteAtWallet(c, s, tx, height);
    }
  }

  lemma InlineRunsAreExecutes(c: Crypto, s: State, tx: Transaction, height: int, account: string)
    requires InlineRunCosts(c, s, tx, height, account)
    ensures tx.payload.ExecuteCode? && tx.receiver == account
  {
  }

  // ---- What is on record ------------------------------------------------------------------

  // Commitments and reveals are of named wallets and bounded requests, seeds are words, salts are
  // bounded.
  ghost predicate SoundEntries(s: State) {
    && (forall r, w :: CommitmentIn(s, r, w).Some? ==> w != "" && RequestIdError(r).None?)
    && (forall r, w :: RevealIn(s, r, w).Some? ==>
          0 <= RevealIn(s, r, w).value.seed < Uvm.WORD_MODULUS && |RevealIn(s, r, w).value.salt| <= MAX_SALT_LENGTH)
  }

  ghost predicate SoundAuthorization(a: Authorization, height: int) {
    a.wallet != "" && a.contractAddress != "" && RequestIdError(a.requestId).None? && a.authorizedAt <= height
  }

  // A contract lives at the address derived from its deployer, some nonce and its code, its code
  // hash is that of its program and metadata, and it has storage.
  ghost predicate SoundContract(c: Crypto, s: State, address: string)
    requires address in s.contracts
  {
    var k := s.contracts[address];
    && k.codeHash == c.codeHash(Code(k.program), k.metadata) && GoodMetadata(k.metadata) && address in s.contractStorage
    && exists nonce :: address == c.contractAddress(k.deployer, nonce, k.codeHash)
  }

  predicate GoodMetadata(m: Metadata) {
    m.Metadata? && GoodRequestIds(m.requestIds)
  }

  ghost predicate SoundRecords(c: Crypto, s: State, height: int) {
    && SoundEntries(s)
    && (forall i :: 0 <= i < |s.authorizations| ==> SoundAuthorization(s.authorizations[i], height))
    && (forall a :: a in s.contracts ==> SoundContract(c, s, a))
  }

  lemma SameRecordsAreSound(c: Crypto, s: State, s': State, height: int)
    requires SoundRecords(c, s, height) && s'.commitments == s.commitments && s'.revealed == s.revealed
    requires s'.authorizations == s.authorizations && s'.contracts == s.contracts && s.contractStorage.Keys <= s'.contractStorage.Keys
    ensures SoundRecords(c, s', height)
  {
    forall a | a in s'.contracts
      ensures SoundContract(c, s', a)
    {
      assert SoundContract(c, s, a);
    }
    forall r, w
      ensures CommitmentIn(s', r, w) == CommitmentIn(s, r, w) && RevealIn(s', r, w) == RevealIn(s, r, w)
    {
    }
  }

  lemma CommitIsSound(c: Crypto, s: State, tx: Transaction, height: int)
    requires tx.payload.CommitHash? && tx.sender != "" && ApplyCommit(s, tx).Success? && SoundRecords(c, s, height)
    ensures SoundRecords(c, ApplyCommit(s, tx).value.state, height)
  {
    hide Put, SoundAuthorization;
    var s' := ApplyCommit(s, tx).value.state;
    PutKeepsOthers(s.commitments, tx.payload.requestId, tx.sender, tx.payload.commitment.value);
    forall a | a in s'.contracts
      ensures SoundContract(c, s', a)
    {
      assert SoundContract(c, s, a);
    }
    assert forall r, w :: RevealIn(s', r, w) == RevealIn(s, r, w);
    var p := tx.payload;
    assert forall r, w :: CommitmentIn(s', r, w) == if r == p.requestId && w == tx.sender then p.commitment else CommitmentIn(s, r, w);
  }

  lemma RevealIsSound(c: Crypto, s: State, tx: Transaction, height: int)
    requires tx.payload.RevealSeed? && ApplyReveal(c, s, tx).Success? && SoundRecords(c, s, height)
    ensures SoundRecords(c, ApplyReveal(c, s, tx).value.state, height)
  {
    hide Put, SoundAuthorization;
    var p, s' := tx.payload, ApplyReveal(c, s, tx).value.state;
    var entry := Uvm.Reveal(p.seed.value, p.salt.value, s.commitments[p.requestId][tx.sender]);
    PutKeepsOthers(s.revealed, p.requestId, tx.sender, entry);
    forall a | a in s'.contracts
      ensures SoundContract(c, s', a)
    {
      assert SoundContract(c, s, a);
    }
    assert forall r, w :: CommitmentIn(s', r, w) == CommitmentIn(s, r, w);
    assert forall r, w :: RevealIn(s', r, w) == if r == p.requestId && w == tx.sender then Some(entry) else RevealIn(s, r, w);
  }

  lemma AuthorizeIsSound(c: Crypto, s: State, tx: Transaction, height: int)
    requires tx.payload.AuthorizeUse? && tx.sender != "" && ApplyAuthorize(s, tx, height).Success? && SoundRecords(c, s, height)
    ensures SoundRecords(c, ApplyAuthorize(s, tx, height).value.state, height)
    ensures var p := tx.payload; p.contractAddress in s.contracts ==> p.codeHash == Some(s.contracts[p.contractAddress].codeHash)
  {
    hide SoundEntries, SoundContract;
    var s' := ApplyAuthorize(s, tx, height).value.state;
    SameRecordsAreSound(c, s, s'.(authorizations := s.authorizations), height);
    OnlyAuthorizationsDiffer(c, s'.(authorizations := s.authorizations), s');
  }

  lemma OnlyAuthorizationsDiffer(c: Crypto, s: State, s': State)
    requires s' == s.(authorizations := s'.authorizations)
    ensures SoundEntries(s) ==> SoundEntries(s')
    ensures forall a :: a in s.contracts && SoundContract(c, s, a) ==> SoundContract(c, s', a)
  {
    assert forall r, w :: CommitmentIn(s', r, w) == CommitmentIn(s, r, w) && RevealIn(s', r, w) == RevealIn(s, r, w);
  }

  lemma DeployIsSound(c: Crypto, s: State, tx: Transaction, height: int)
    requires tx.payload.DeployCode? && ApplyDeploy(c, s, tx).Success? && SoundRecords(c, s, height)
    ensures SoundRecords(c, ApplyDeploy(c, s, tx).value.state, height)
  {
    hide SoundAuthorization, GoodRequestIds;
    var p, s' := tx.payload, ApplyDeploy(c, s, tx).value.state;
    assert p.contractAddress == c.contractAddress(tx.sender, tx.nonce, p.deployedHash);
    forall a | a in s'.contracts
      ensures SoundContract(c, s', a)
    {
      assert a in s.contracts ==> SoundContract(c, s, a);
    }
    assert forall r, w :: CommitmentIn(s', r, w) == CommitmentIn(s, r, w) && RevealIn(s', r, w) == RevealIn(s, r, w);
  }

  lemma ExecutedIsSound(c: Crypto, s: State, tx: Transaction, e: Uvm.Execution, feePaid: real, height: int)
    requires SoundRecords(c, s, height)
    ensures SoundRecords(c, Executed(c, s, tx, e, feePaid), height)
  {
    hide SoundRecords, Credited, Merged, Get, Bal;
    SameRecordsAreSound(c, s, Executed(c, s, tx, e, feePaid), height);
  }

  // The kinds that only move money.
  lemma MoneyIsSound(c: Crypto, s: State, tx: Transaction, height: int)
    requires IsReward(tx) || tx.payload.TransferFunds? || tx.payload.ExecuteCode?
    requires Apply(c, s, tx, height).Success? && SoundRecords(c, s, height)
    ensures SoundRecords(c, Apply(c, s, tx, height).value.state, height)
  {
    hide SoundRecords, AuthenticityError, Execution, FuelFee, Bal, Executed, Credited;
    if IsReward(tx) || tx.payload.TransferFunds? {
      SameRecordsAreSound(c, s, Apply(c, s, tx, height).value.state, height);
    } else {
      var e := Execution(c, s, tx, height);
      ExecutedIsSound(c, s, tx, e, FuelFee(tx, e.gasUsed), height);
    }
  }

  // Every accepted transaction keeps the records sound.
  lemma ApplyKeepsSoundRecords(c: Crypto, s: State, tx: Transaction, height: int)
    requires Apply(c, s, tx, height).Success? && SoundRecords(c, s, height)
    ensures SoundRecords(c, Apply(c, s, tx, height).value.state, height)
  {
    hide *;
    if IsReward(tx) || tx.payload.TransferFunds? || tx.payload.ExecuteCode? {
      MoneyIsSound(c, s, tx, height);
    } else {
      RecordedKind(c, s, tx, height);
      match tx.payload {
        case CommitHash(_, _) => CommitIsSound(c, s, tx, height);
        case RevealSeed(_, _, _) => RevealIsSound(c, s, tx, height);
        case AuthorizeUse(_, _, _, _) => AuthorizeIsSound(c, s, tx, height);
        case DeployCode(_, _, _, _) => DeployIsSound(c, s, tx, height);
        case _ =>
      }
    }
  }

  lemma RecordedKind(c: Crypto, s: State, tx: Transaction, height: int)
    requires Apply(c, s, tx, height).Success? && !IsReward(tx) && !tx.payload.TransferFunds? && !tx.payload.ExecuteCode?
    ensures tx.sender != "" && !tx.payload.OtherKind?
    ensures tx.payload.CommitHash? ==> Apply(c, s, tx, height) == ApplyCommit(s, tx)
    ensures tx.payload.RevealSeed? ==> Apply(c, s, tx, height) == ApplyReveal(c, s, tx)
    ensures tx.payload.AuthorizeUse? ==> Apply(c, s, tx, height) == ApplyAuthorize(s, tx, height)
    ensures tx.payload.DeployCode? ==> Apply(c, s, tx, height) == ApplyDeploy(c, s, tx)
  {
    hide ApplyCommit, ApplyReveal, ApplyAuthorize, ApplyDeploy, ApplyExecute, ApplyTransfer, ApplyReward, AuthenticityError;
  }
}

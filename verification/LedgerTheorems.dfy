/** What every transaction keeps: money is conserved, nonces count, and history is write-once. */
module LedgerTheorems {
  import opened Base
  import opened Ledger
  import Uvm
  import UvmTheorems

  // ---- Money ------------------------------------------------------------------------------

  lemma CreditMoves(balances: map<string, real>, account: string, amount: real)
    ensures Sum(Credited(balances, account, amount)) == Sum(balances) + amount
    ensures forall a :: Bal(Credited(balances, account, amount), a) == Bal(balances, a) + (if a == account then amount else 0.0)
  {
    SumUpdate(balances, account, Bal(balances, account) + amount);
  }

  lemma {:induction false} SumMerged(balances: map<string, real>, changes: map<string, real>)
    ensures Sum(Merged(balances, changes)) == Sum(balances) + Sum(changes)
    decreases |changes|
  {
    hide Merged, Sum;
    if changes == map[] {
      NothingMerged(balances);
    } else {
      var k :| k in changes;
      SumRemove(changes, k);
      SumMerged(balances, changes - {k});
      SumMergedStep(balances, changes, k);
    }
  }

  lemma NothingMerged(balances: map<string, real>)
    ensures Merged(balances, map[]) == balances && Sum(map[]) == 0.0
  {
  }

  lemma SumMergedStep(balances: map<string, real>, changes: map<string, real>, k: string)
    requires k in changes
    ensures Sum(Merged(balances, changes)) == Sum(Merged(balances, changes - {k})) + changes[k]
  {
    hide Merged, Sum;
    MergedStep(balances, changes, k);
    SumUpdate(Merged(balances, changes - {k}), k, Bal(balances, k) + changes[k]);
  }

  lemma MergedStep(balances: map<string, real>, changes: map<string, real>, k: string)
    requires k in changes
    ensures Merged(balances, changes) == Merged(balances, changes - {k})[k := Bal(balances, k) + changes[k]]
    ensures Bal(Merged(balances, changes - {k}), k) == Bal(balances, k)
  {
  }

  lemma MergedAt(balances: map<string, real>, changes: map<string, real>)
    ensures forall a :: Bal(Merged(balances, changes), a) == Bal(balances, a) + Bal(changes, a)
  {
  }

  lemma EscrowIsCovered(s: State, tx: Transaction)
    requires NonNegative(s.balances) && tx.amount >= 0.0 && Bal(s.balances, tx.sender) >= tx.amount + tx.fee
    ensures var escrowed := EscrowedBalances(s, tx);
            && NonNegative(escrowed)
            && forall a :: Bal(escrowed, a) == Bal(s.balances, a) - (if a == tx.sender then tx.amount + tx.fee else 0.0)
                                                                 + (if a == tx.receiver then tx.amount else 0.0)
  {
    CreditMoves(s.balances, tx.sender, -(tx.amount + tx.fee));
    CreditMoves(Credited(s.balances, tx.sender, -(tx.amount + tx.fee)), tx.receiver, tx.amount);
  }

  // Balances after an execution, account by account and in total.
  lemma ExecutedBalances(c: Crypto, s: State, tx: Transaction, e: Uvm.Execution, feePaid: real)
    requires tx.amount >= 0.0
    ensures var b := Executed(c, s, tx, e, feePaid).balances;
            && Sum(b) == Sum(s.balances) - feePaid + (if e.success then Sum(e.balanceChanges) else 0.0)
            && forall a :: Bal(b, a) == Bal(s.balances, a) - (if a == tx.sender then feePaid else 0.0)
                 + (if e.success then Bal(e.balanceChanges, a) + (if a == tx.receiver then tx.amount else 0.0)
                                                               - (if a == tx.sender then tx.amount else 0.0)
                    else 0.0)
  {
    hide Bal, Credited, Merged, Settled;
    CreditMoves(s.balances, tx.sender, -feePaid);
    ChargeIsCredit(s, tx, feePaid);
    SettledBalances(Charged(s, tx, feePaid), tx, e);
  }

  lemma SettledBalances(paid: State, tx: Transaction, e: Uvm.Execution)
    requires tx.amount >= 0.0
    ensures var b := Settled(paid, tx, e).balances;
            && Sum(b) == Sum(paid.balances) + Sum(e.balanceChanges)
            && forall a :: Bal(b, a) == Bal(paid.balances, a) + Bal(e.balanceChanges, a)
                 + (if a == tx.receiver then tx.amount else 0.0) - (if a == tx.sender then tx.amount else 0.0)
  {
    hide Bal, Credited, Merged;
    CreditMoves(paid.balances, tx.sender, -tx.amount);
    var sent := Credited(paid.balances, tx.sender, -tx.amount);
    CreditMoves(sent, tx.receiver, tx.amount);
    var received := if tx.amount > 0.0 then Credited(sent, tx.receiver, tx.amount) else sent;
    SumMerged(received, e.balanceChanges);
    MergedAt(received, e.balanceChanges);
  }

  lemma ChargeIsCredit(s: State, tx: Transaction, cost: real)
    ensures Charged(s, tx, cost).balances == Credited(s.balances, tx.sender, -cost)
  {
  }

  lemma FuelFitsTheFee(tx: Transaction, gasUsed: nat)
    requires tx.payload.ExecuteCode? && tx.payload.gasPrice.Some? && tx.payload.gasLimit.Some?
    requires gasUsed <= tx.payload.gasLimit.value && tx.fee >= 0.0 && tx.payload.gasPrice.value >= 0.0
    requires tx.payload.gasPrice.value > 0.0 ==> tx.fee >= tx.payload.gasLimit.value as real * tx.payload.gasPrice.value
    ensures 0.0 <= FuelFee(tx, gasUsed) <= tx.fee
  {
  }

  ghost predicate Conserves(s: State, tx: Transaction, r: Applied) {
    && NonNegative(r.state.balances)
    && 0.0 <= r.feePaid
    && (IsReward(tx) ==> r.feePaid == 0.0 && Sum(r.state.balances) == Sum(s.balances) + tx.amount)
    && (!IsReward(tx) ==> r.feePaid <= tx.fee && Sum(r.state.balances) == Sum(s.balances) - r.feePaid)
  }

  // A run that is safe on the escrowed balances leaves safe balances behind.
  lemma SettlementIsSafe(c: Crypto, s: State, tx: Transaction, e: Uvm.Execution, feePaid: real)
    requires NonNegative(s.balances) && tx.amount >= 0.0 && Bal(s.balances, tx.sender) >= tx.amount + tx.fee
    requires 0.0 <= feePaid <= tx.fee
    requires Sum(e.balanceChanges) == 0.0
    requires forall a :: Bal(EscrowedBalances(s, tx), a) + Bal(e.balanceChanges, a) >= 0.0
    ensures var b := Executed(c, s, tx, e, feePaid).balances; NonNegative(b) && Sum(b) == Sum(s.balances) - feePaid
  {
    hide Bal, EscrowedBalances, Executed;
    EscrowIsCovered(s, tx);
    ExecutedBalances(c, s, tx, e, feePaid);
    var b := Executed(c, s, tx, e, feePaid).balances;
    forall a
      ensures Bal(b, a) >= 0.0
    {
      assert Bal(EscrowedBalances(s, tx), a) + Bal(e.balanceChanges, a) >= 0.0;
      assert Bal(s.balances, a) >= 0.0;
    }
  }

  lemma ExecutionFitsEscrow(c: Crypto, s: State, tx: Transaction, height: int)
    requires NonNegative(s.balances) && tx.payload.ExecuteCode? && ExecuteError(s, tx).None?
    ensures var e := Execution(c, s, tx, height);
            && e.gasUsed <= tx.payload.gasLimit.value
            && Sum(e.balanceChanges) == 0.0
            && forall a :: Bal(EscrowedBalances(s, tx), a) + Bal(e.balanceChanges, a) >= 0.0
  {
    hide Bal, EscrowedBalances, Uvm.Execute, TargetOf, ExecutionContext;
    EscrowIsCovered(s, tx);
    var target := TargetOf(c, s, tx);
    UvmTheorems.ExecutionIsSafe(if target.source.Code? then Some(target.source.program) else None,
                                ExecutionContext(c, s, tx, target, height), tx.payload.gasLimit.value,
                                Get(s.contractStorage, tx.receiver, map[]), EscrowedBalances(s, tx));
  }

  lemma ExecuteConserves(c: Crypto, s: State, tx: Transaction, height: int)
    requires NonNegative(s.balances) && tx.fee >= 0.0 && !IsReward(tx) && tx.payload.ExecuteCode?
    requires ApplyExecute(c, s, tx, height).Success?
    ensures Conserves(s, tx, ApplyExecute(c, s, tx, height).value)
  {
    hide Bal, EscrowedBalances, Executed, Execution, FuelFee;
    ExecutionFitsEscrow(c, s, tx, height);
    var e := Execution(c, s, tx, height);
    FuelFitsTheFee(tx, e.gasUsed);
    SettlementIsSafe(c, s, tx, e, FuelFee(tx, e.gasUsed));
  }

  lemma FeeConserves(s: State, tx: Transaction, cost: real)
    requires NonNegative(s.balances) && 0.0 <= cost <= Bal(s.balances, tx.sender)
    ensures NonNegative(Charged(s, tx, cost).balances) && Sum(Charged(s, tx, cost).balances) == Sum(s.balances) - cost
  {
    ChargeIsCredit(s, tx, cost);
    CreditMoves(s.balances, tx.sender, -cost);
  }

  // No kind of transaction creates or destroys money: a reward adds its amount, every other
  // transaction takes exactly the fee it pays, and nobody's balance goes below zero.
  lemma ApplyConserves(c: Crypto, s: State, tx: Transaction, height: int)
    requires NonNegative(s.balances) && Apply(c, s, tx, height).Success?
    ensures Conserves(s, tx, Apply(c, s, tx, height).value)
  {
    hide Bal, Charged, Credited, ApplyExecute, CommitError, RevealError, AuthorizeError, DeployError;
    if IsReward(tx) {
      CreditMoves(s.balances, tx.receiver, tx.amount);
    } else if tx.payload.ExecuteCode? {
      ExecuteConserves(c, s, tx, height);
    } else if tx.payload.TransferFunds? {
      FeeConserves(s, tx, tx.amount + tx.fee);
      CreditMoves(Charged(s, tx, tx.amount + tx.fee).balances, tx.receiver, tx.amount);
    } else {
      FeeConserves(s, tx, tx.fee);
    }
  }


  // ---- History ----------------------------------------------------------------------------

  function CommitmentIn(s: State, request: string, wallet: string): Option<nat> {
    if wallet in Get(s.commitments, request, map[]) then Some(s.commitments[request][wallet]) else None
  }

  function RevealIn(s: State, request: string, wallet: string): Option<Uvm.Reveal> {
    if wallet in Get(s.revealed, request, map[]) then Some(s.revealed[request][wallet]) else None
  }

  // Nothing recorded in s has been changed or forgotten in t.
  ghost predicate Remembers(s: State, t: State) {
    && (forall r, w :: CommitmentIn(s, r, w).Some? ==> CommitmentIn(t, r, w) == CommitmentIn(s, r, w))
    && (forall r, w :: RevealIn(s, r, w).Some? ==> RevealIn(t, r, w) == RevealIn(s, r, w))
    && (forall a :: a in s.contracts ==> a in t.contracts && t.contracts[a] == s.contracts[a])
    && s.authorizations <= t.authorizations
  }

  // Every stored reveal opens the commitment stored for the same wallet and request.
  ghost predicate RevealsOpenCommitments(c: Crypto, s: State) {
    forall r, w :: RevealIn(s, r, w).Some? ==>
      var entry := RevealIn(s, r, w).value;
      CommitmentIn(s, r, w) == Some(entry.commitment) && c.commitmentOf(w, r, entry.seed, entry.salt) == entry.commitment
  }

  lemma PutKeepsOthers<V>(table: map<string, map<string, V>>, request: string, wallet: string, v: V)
    ensures forall r, w :: w in Get(Put(table, request, wallet, v), r, map[]) <==>
              (r == request && w == wallet) || w in Get(table, r, map[])
    ensures forall r, w :: w in Get(table, r, map[]) && !(r == request && w == wallet) ==>
              Put(table, request, wallet, v)[r][w] == table[r][w]
    ensures Put(table, request, wallet, v)[request][wallet] == v
  {
  }

  function NonceOf(s: State, wallet: string): int {
    Get(s.nonces, wallet, 0)
  }

  // What every accepted transaction does to the records: it takes its sender's next nonce,
  // unless it is a reward, and only adds to history.
  ghost predicate KeepsRecords(c: Crypto, s: State, tx: Transaction, s': State) {
    && s'.height == s.height
    && s'.nonces == (if IsReward(tx) then s.nonces else s.nonces[tx.sender := NonceOf(s, tx.sender) + 1])
    && Remembers(s, s')
    && (RevealsOpenCommitments(c, s) ==> RevealsOpenCommitments(c, s'))
  }

  lemma SameHistory(c: Crypto, s: State, t: State)
    requires s.commitments == t.commitments && s.revealed == t.revealed && s.authorizations <= t.authorizations
    requires forall a :: a in s.contracts ==> a in t.contracts && t.contracts[a] == s.contracts[a]
    ensures Remembers(s, t) && (RevealsOpenCommitments(c, s) ==> RevealsOpenCommitments(c, t))
  {
  }

  lemma RewardKeepsRecords(c: Crypto, s: State, tx: Transaction)
    requires IsReward(tx) && ApplyReward(s, tx).Success?
    ensures KeepsRecords(c, s, tx, ApplyReward(s, tx).value.state)
  {
    hide Remembers, RevealsOpenCommitments;
    SameHistory(c, s, ApplyReward(s, tx).value.state);
  }

  lemma TransferKeepsRecords(c: Crypto, s: State, tx: Transaction)
    requires !IsReward(tx) && ApplyTransfer(s, tx).Success?
    ensures KeepsRecords(c, s, tx, ApplyTransfer(s, tx).value.state)
  {
    hide Remembers, RevealsOpenCommitments;
    SameHistory(c, s, ApplyTransfer(s, tx).value.state);
  }

  lemma CommitKeepsRecords(c: Crypto, s: State, tx: Transaction)
    requires !IsReward(tx) && tx.payload.CommitHash? && ApplyCommit(s, tx).Success?
    ensures KeepsRecords(c, s, tx, ApplyCommit(s, tx).value.state)
  {
    hide Put;
    PutKeepsOthers(s.commitments, tx.payload.requestId, tx.sender, tx.payload.commitment.value);
    var s' := ApplyCommit(s, tx).value.state;
    assert CommitmentIn(s, tx.payload.requestId, tx.sender).None?;
    assert forall r, w :: CommitmentIn(s, r, w).Some? ==> CommitmentIn(s', r, w) == CommitmentIn(s, r, w);
    assert forall r, w :: RevealIn(s', r, w) == RevealIn(s, r, w);
  }

  lemma RevealKeepsRecords(c: Crypto, s: State, tx: Transaction)
    requires !IsReward(tx) && tx.payload.RevealSeed? && ApplyReveal(c, s, tx).Success?
    ensures KeepsRecords(c, s, tx, ApplyReveal(c, s, tx).value.state)
  {
    hide Put;
    var p := tx.payload;
    PutKeepsOthers(s.revealed, p.requestId, tx.sender,
                   Uvm.Reveal(p.seed.value, p.salt.value, s.commitments[p.requestId][tx.sender]));
    var s' := ApplyReveal(c, s, tx).value.state;
    assert forall r, w :: CommitmentIn(s', r, w) == CommitmentIn(s, r, w);
    assert forall r, w :: !(r == p.requestId && w == tx.sender) ==> RevealIn(s', r, w) == RevealIn(s, r, w);
  }

  lemma AuthorizeKeepsRecords(c: Crypto, s: State, tx: Transaction, height: int)
    requires !IsReward(tx) && tx.payload.AuthorizeUse? && ApplyAuthorize(s, tx, height).Success?
    ensures KeepsRecords(c, s, tx, ApplyAuthorize(s, tx, height).value.state)
  {
    hide Remembers, RevealsOpenCommitments, Get;
    SameHistory(c, s, ApplyAuthorize(s, tx, height).value.state);
  }

  lemma DeployKeepsRecords(c: Crypto, s: State, tx: Transaction)
    requires !IsReward(tx) && tx.payload.DeployCode? && ApplyDeploy(c, s, tx).Success?
    ensures KeepsRecords(c, s, tx, ApplyDeploy(c, s, tx).value.state)
  {
    hide Remembers, RevealsOpenCommitments, Get;
    SameHistory(c, s, ApplyDeploy(c, s, tx).value.state);
  }

  lemma ExecutedKeepsRecords(c: Crypto, s: State, tx: Transaction, e: Uvm.Execution, feePaid: real)
    requires !IsReward(tx)
    ensures KeepsRecords(c, s, tx, Executed(c, s, tx, e, feePaid))
  {
    hide Credited, Merged, Remembers, RevealsOpenCommitments, Get;
    SameHistory(c, s, Executed(c, s, tx, e, feePaid));
  }

  lemma ExecuteKeepsRecords(c: Crypto, s: State, tx: Transaction, height: int)
    requires !IsReward(tx) && tx.payload.ExecuteCode? && ApplyExecute(c, s, tx, height).Success?
    ensures KeepsRecords(c, s, tx, ApplyExecute(c, s, tx, height).value.state)
  {
    hide Execution, FuelFee, Executed, Remembers, RevealsOpenCommitments, Get, KeepsRecords;
    ExecutedKeepsRecords(c, s, tx, Execution(c, s, tx, height), FuelFee(tx, Execution(c, s, tx, height).gasUsed));
  }

  // Commitments, reveals and contracts are write-once, authorizations only grow, every stored
  // reveal opens its commitment, and nonces go up one by one.
  lemma ApplyKeepsRecords(c: Crypto, s: State, tx: Transaction, height: int)
    requires Apply(c, s, tx, height).Success?
    ensures KeepsRecords(c, s, tx, Apply(c, s, tx, height).value.state)
  {
    hide KeepsRecords, ApplyReward, ApplyTransfer, ApplyCommit, ApplyReveal, ApplyAuthorize, ApplyDeploy, ApplyExecute, AuthenticityError;
    if IsReward(tx) {
      RewardKeepsRecords(c, s, tx);
    } else {
      match tx.payload {
        case TransferFunds => TransferKeepsRecords(c, s, tx);
        case CommitHash(_, _) => CommitKeepsRecords(c, s, tx);
        case RevealSeed(_, _, _) => RevealKeepsRecords(c, s, tx);
        case AuthorizeUse(_, _, _, _) => AuthorizeKeepsRecords(c, s, tx, height);
        case DeployCode(_, _, _, _) => DeployKeepsRecords(c, s, tx);
        case ExecuteCode(_, _, _, _, _) => ExecuteKeepsRecords(c, s, tx, height);
        case OtherKind(_) =>
      }
    }
  }

  // ---- Nonces -----------------------------------------------------------------------------

  // An accepted transaction carries its sender's next nonce and moves that nonce, and no other,
  // up by one; a failed contract run counts too, a reward does not.
  lemma ApplyCountsNonces(c: Crypto, s: State, tx: Transaction, height: int)
    requires Apply(c, s, tx, height).Success?
    ensures var s' := Apply(c, s, tx, height).value.state;
            && (!IsReward(tx) ==> tx.nonce == NonceOf(s, tx.sender))
            && forall a :: NonceOf(s', a) == NonceOf(s, a) + (if a == tx.sender && !IsReward(tx) then 1 else 0)
  {
    ApplyKeepsRecords(c, s, tx, height);
    hide Remembers, RevealsOpenCommitments, ApplyReward, ApplyTransfer, ApplyCommit, ApplyReveal, ApplyAuthorize, ApplyDeploy, ApplyExecute, AuthenticityError;
  }

  // How many transactions of a wallet a sequence holds, rewards aside.
  function CountOf(txs: seq<Transaction>, wallet: string): nat {
    if txs == [] then 0 else
    var last := txs[|txs| - 1];
    CountOf(txs[..|txs| - 1], wallet) + (if last.sender == wallet && !IsReward(last) then 1 else 0)
  }

  lemma {:induction false} SequenceCountsNonces(c: Crypto, s: State, txs: seq<Transaction>, height: int)
    requires ApplyAll(c, s, txs, height).Success?
    ensures forall a :: NonceOf(ApplyAll(c, s, txs, height).value.state, a) == NonceOf(s, a) + CountOf(txs, a)
    ensures forall i :: 0 <= i < |txs| && !IsReward(txs[i]) ==>
              txs[i].nonce == NonceOf(s, txs[i].sender) + CountOf(txs[..i], txs[i].sender)
  {
    hide Apply;
    if txs != [] {
      var before := txs[..|txs| - 1];
      SequenceCountsNonces(c, s, before, height);
      ApplyCountsNonces(c, ApplyAll(c, s, before, height).value.state, txs[|txs| - 1], height);
      forall i | 0 <= i < |before|
        ensures txs[..i] == before[..i]
      {
      }
    }
  }

  // ---- Authorizations ---------------------------------------------------------------------

  // An authorization by the wallet, of the request, for the contract and its code, whose scope has
  // begun and has not ended at the height.
  ghost predicate InForce(a: Authorization, wallet: string, request: string, contractAddress: string, codeHash: string, height: int) {
    && wallet != "" && request != "" && a.wallet == wallet && a.requestId == request
    && a.contractAddress == contractAddress && a.codeHash == codeHash
    && (a.scope.validFrom.Some? ==> a.scope.validFrom.value <= height)
    && (a.scope.validUntil.Some? ==> height <= a.scope.validUntil.value)
  }

  ghost predicate OnRecord(log: seq<Authorization>, wallet: string, request: string, contractAddress: string, codeHash: string, height: int) {
    exists i :: 0 <= i < |log| && InForce(log[i], wallet, request, contractAddress, codeHash, height)
  }

  lemma GrantsAreInForce(a: Authorization, contractAddress: string, codeHash: string, height: int)
    ensures forall wallet, request :: InForce(a, wallet, request, contractAddress, codeHash, height)
              <==> a.wallet == wallet && a.requestId == request && Grants(a, contractAddress, codeHash, height)
  {
  }

  // A wallet counts as having authorised a request exactly when some recorded authorization of
  // its own matches contract, code hash and request and covers the height.
  lemma {:induction false} IndexIsTheRecord(log: seq<Authorization>, wallet: string, request: string,
                                            contractAddress: string, codeHash: string, height: int)
    ensures Uvm.IsRequestAuthorized(AuthorizationsFor(log, contractAddress, codeHash, height), wallet, request)
        <==> OnRecord(log, wallet, request, contractAddress, codeHash, height)
  {
    hide Grants, InForce;
    if log != [] {
      var front, last := log[..|log| - 1], log[|log| - 1];
      GrantsAreInForce(last, contractAddress, codeHash, height);
      IndexIsTheRecord(front, wallet, request, contractAddress, codeHash, height);
      if OnRecord(front, wallet, request, contractAddress, codeHash, height) {
        var i :| 0 <= i < |front| && InForce(front[i], wallet, request, contractAddress, codeHash, height);
        assert log[i] == front[i];
      }
      if OnRecord(log, wallet, request, contractAddress, codeHash, height) {
        var i :| 0 <= i < |log| && InForce(log[i], wallet, request, contractAddress, codeHash, height);
        if i < |front| {
          assert front[i] == log[i];
        }
      }
    }
  }

  // Every transfer a contract run makes comes from the sender, from the contract, or from a
  // wallet whose recorded authorization matches and covers the block.
  lemma TransfersAreAuthorised(c: Crypto, s: State, tx: Transaction, height: int)
    requires NonNegative(s.balances) && tx.payload.ExecuteCode? && ExecuteError(s, tx).None?
    ensures var hash := TargetOf(c, s, tx).codeHash;
            forall t :: t in Execution(c, s, tx, height).transfers ==>
              t.source == tx.sender || t.source == tx.receiver
              || OnRecord(s.authorizations, t.source, t.requestId, tx.receiver, hash, height)
  {
    hide Bal, EscrowedBalances, Uvm.Execute, TargetOf;
    EscrowIsCovered(s, tx);
    var target := TargetOf(c, s, tx);
    var ctx := ExecutionContext(c, s, tx, target, height);
    UvmTheorems.ExecutionIsSafe(if target.source.Code? then Some(target.source.program) else None, ctx, tx.payload.gasLimit.value,
                                Get(s.contractStorage, tx.receiver, map[]), EscrowedBalances(s, tx));
    forall t | t in Execution(c, s, tx, height).transfers
      ensures t.source == tx.sender || t.source == tx.receiver
              || OnRecord(s.authorizations, t.source, t.requestId, tx.receiver, target.codeHash, height)
    {
      assert UvmTheorems.Permitted(ctx, t);
      IndexIsTheRecord(s.authorizations, t.source, t.requestId, tx.receiver, target.codeHash, height);
    }
  }
}

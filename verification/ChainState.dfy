/** The state of a chain in the form the node keeps it: an object whose dictionaries are objects
    of their own, so that two states can share them, and the transaction interpreter that changes
    them in place. Every method is proved to do exactly what Ledger says. */
module ChainStates {
  import opened Base
  import opened Ledger
  import Uvm
  import UvmMachine

  // A dictionary or list that is updated in place and may be shared.
  class Ref<T> {
    var v: T

    constructor (v: T)
      ensures this.v == v
    {
      this.v := v;
    }
  }

  class FeeCollector {
    var fees: seq<real>

    constructor ()
      ensures fees == []
    {
      fees := [];
    }
  }

  class ChainState {
    const balances: Ref<map<string, real>>
    const nonces: Ref<map<string, int>>
    const commitments: Ref<map<string, map<string, nat>>>
    const revealed: Ref<map<string, map<string, Uvm.Reveal>>>
    const authorizations: Ref<seq<Authorization>>
    const contracts: Ref<map<string, Contract>>
    const contractStorage: Ref<map<string, map<string, int>>>
    const receipts: Ref<map<string, Receipt>>
    var height: int

    function Parts(): set<object> {
      {balances, nonces, commitments, revealed, authorizations, contracts, contractStorage, receipts}
    }

    function Objects(): set<object> {
      Parts() + {this}
    }

    function View(): State
      reads Objects()
    {
      State(balances.v, nonces.v, commitments.v, revealed.v, authorizations.v,
            contracts.v, contractStorage.v, receipts.v, height)
    }

    // A state with dictionaries of its own: a copy of another state, or the empty one.
    constructor Own(s: State)
      ensures View() == s && fresh(Objects()) && fresh(Parts())
    {
      balances := new Ref(s.balances);
      nonces := new Ref(s.nonces);
      commitments := new Ref(s.commitments);
      revealed := new Ref(s.revealed);
      authorizations := new Ref(s.authorizations);
      contracts := new Ref(s.contracts);
      contractStorage := new Ref(s.contractStorage);
      receipts := new Ref(s.receipts);
      height := s.height;
    }

    // New balances and a new height, everything else shared with the parent.
    constructor Sharing(parent: ChainState, balances: Ref<map<string, real>>, height: int)
      ensures View() == parent.View().(balances := balances.v, height := height)
      ensures Objects() <= parent.Parts() + {this, balances}
    {
      this.balances := balances;
      nonces, commitments, revealed := parent.nonces, parent.commitments, parent.revealed;
      authorizations, contracts := parent.authorizations, parent.contracts;
      contractStorage, receipts := parent.contractStorage, parent.receipts;
      this.height := height;
    }

    // Takes the cost from the sender and counts the transaction.
    method Charge(tx: Transaction, cost: real)
      modifies nonces, balances
      ensures View() == Charged(old(View()), tx, cost)
    {
      nonces.v := nonces.v[tx.sender := Get(nonces.v, tx.sender, 0) + 1];
      balances.v := balances.v[tx.sender := Bal(balances.v, tx.sender) - cost];
    }

    method Credit(account: string, amount: real)
      modifies balances
      ensures View() == old(View()).(balances := Credited(old(View()).balances, account, amount))
    {
      balances.v := balances.v[account := Bal(balances.v, account) + amount];
    }
  
    // Pays the fee of a transaction whose own check has passed, or says why not.
    method Pay(tx: Transaction, error: Option<TxError>) returns (r: Option<TxError>)
      modifies nonces, balances
      ensures match PayFee(old(View()), tx, error)
              case Success(s) => r == None && View() == s
              case Failure(e) => r == Some(e) && View() == old(View())
    {
      if error.Some? {
        return error;
      }
      if Bal(balances.v, tx.sender) < tx.fee {
        return Some(BalanceTooLow);
      }
      Charge(tx, tx.fee);
      return None;
    }

    // ---- One method per kind of transaction: the error, or the fee that was paid ------------

    ghost predicate Did(before: State, outcome: Outcome, r: Result<real, TxError>)
      reads Objects()
    {
      match outcome
      case Success(a) => r == Success(a.feePaid) && View() == a.state
      case Failure(e) => r == Failure(e) && View() == before
    }

    method DoReward(tx: Transaction) returns (r: Result<real, TxError>)
      modifies balances
      ensures Did(old(View()), ApplyReward(old(View()), tx), r)
    {
      if tx.receiver == "" {
        return Failure(RewardWithoutReceiver);
      }
      if tx.amount <= 0.0 {
        return Failure(RewardNotPositive);
      }
      Credit(tx.receiver, tx.amount);
      return Success(0.0);
    }

    method DoTransfer(tx: Transaction) returns (r: Result<real, TxError>)
      modifies nonces, balances
      ensures Did(old(View()), ApplyTransfer(old(View()), tx), r)
    {
      if tx.receiver == "" {
        return Failure(NoReceiver);
      }
      if tx.amount <= 0.0 {
        return Failure(AmountNotPositive);
      }
      var totalCost := tx.amount + tx.fee;
      if Bal(balances.v, tx.sender) < totalCost {
        return Failure(BalanceTooLow);
      }
      Charge(tx, totalCost);
      Credit(tx.receiver, tx.amount);
      return Success(tx.fee);
    }

    method DoCommit(tx: Transaction) returns (r: Result<real, TxError>)
      requires tx.payload.CommitHash?
      modifies nonces, balances, commitments
      ensures Did(old(View()), ApplyCommit(old(View()), tx), r)
    {
      var error := Pay(tx, CommitError(tx, View()));
      if error.Some? {
        return Failure(error.value);
      }
      commitments.v := Put(commitments.v, tx.payload.requestId, tx.sender, tx.payload.commitment.value);
      return Success(tx.fee);
    }

    method DoReveal(c: Crypto, tx: Transaction) returns (r: Result<real, TxError>)
      requires tx.payload.RevealSeed?
      modifies nonces, balances, revealed
      ensures Did(old(View()), ApplyReveal(c, old(View()), tx), r)
    {
      var p := tx.payload;
      var error := Pay(tx, RevealError(c, tx, View()));
      if error.Some? {
        return Failure(error.value);
      }
      var entry := Uvm.Reveal(p.seed.value, p.salt.value, commitments.v[p.requestId][tx.sender]);
      revealed.v := Put(revealed.v, p.requestId, tx.sender, entry);
      return Success(tx.fee);
    }

    method DoAuthorize(tx: Transaction, blockHeight: int) returns (r: Result<real, TxError>)
      requires tx.payload.AuthorizeUse?
      modifies nonces, balances, authorizations
      ensures Did(old(View()), ApplyAuthorize(old(View()), tx, blockHeight), r)
    {
      var p := tx.payload;
      var error := Pay(tx, AuthorizeError(tx, View()));
      if error.Some? {
        return Failure(error.value);
      }
      var entry := Authorization(tx.sender, p.contractAddress, p.codeHash.value, p.requestId, p.scope.value, blockHeight);
      authorizations.v := authorizations.v + [entry];
      return Success(tx.fee);
    }

    method DoDeploy(c: Crypto, tx: Transaction) returns (r: Result<real, TxError>)
      requires tx.payload.DeployCode?
      modifies nonces, balances, contracts, contractStorage
      ensures Did(old(View()), ApplyDeploy(c, old(View()), tx), r)
    {
      var p := tx.payload;
      var error := Pay(tx, DeployError(c, tx, View()));
      if error.Some? {
        return Failure(error.value);
      }
      contracts.v := contracts.v[p.contractAddress := Contract(tx.sender, p.deployedHash, p.program.program, p.metadata)];
      contractStorage.v := contractStorage.v[p.contractAddress := Get(contractStorage.v, p.contractAddress, map[])];
      return Success(tx.fee);
    }

    method AuthorizationIndex(contractAddress: string, codeHash: string, blockHeight: int) returns (index: Uvm.AuthorizationIndex)
      ensures index == AuthorizationsFor(authorizations.v, contractAddress, codeHash, blockHeight)
    {
      index := map[];
      var log := authorizations.v;
      for i := 0 to |log|
        invariant index == AuthorizationsFor(log[..i], contractAddress, codeHash, blockHeight)
      {
        assert log[..i + 1][..i] == log[..i];
        if Grants(log[i], contractAddress, codeHash, blockHeight) {
          var a := log[i];
          index := index[a.wallet := Get(index, a.wallet, map[])[a.requestId := a.scope]];
        }
      }
      assert log[..|log|] == log;
    }

    method MergeBalances(changes: map<string, real>)
      modifies balances
      ensures View() == old(View()).(balances := Merged(old(View()).balances, changes))
    {
      hide Merged, MergedBut, Bal;
      ghost var before := balances.v;
      var todo := changes.Keys;
      MergedAll(before, changes);
      while todo != {}
        invariant todo <= changes.Keys && balances.v == MergedBut(before, changes, todo)
        decreases |todo|
      {
        var a :| a in todo;
        MergedNext(before, changes, todo, a);
        balances.v := balances.v[a := Bal(balances.v, a) + changes[a]];
        todo := todo - {a};
      }
    }

    method Settle(tx: Transaction, e: Uvm.Execution)
      modifies balances, contractStorage
      ensures View() == Settled(old(View()), tx, e)
    {
      hide Merged, Credited;
      Credit(tx.sender, -tx.amount);
      if tx.amount > 0.0 {
        Credit(tx.receiver, tx.amount);
      }
      MergeBalances(e.balanceChanges);
      contractStorage.v := contractStorage.v[tx.receiver := e.storage];
    }

    method DoExecute(c: Crypto, tx: Transaction, blockHeight: int) returns (r: Result<real, TxError>)
      requires tx.payload.ExecuteCode?
      modifies nonces, balances, contractStorage, receipts
      ensures Did(old(View()), ApplyExecute(c, old(View()), tx, blockHeight), r)
    {
      hide Settled, Charged, FuelFee, Execution;
      var error := ExecuteError(View(), tx);
      if error.Some? {
        return Failure(error.value);
      }
      var e := RunContract(c, tx, blockHeight);
      var feePaid := FuelFee(tx, e.gasUsed);
      Charge(tx, feePaid);
      if e.success {
        Settle(tx, e);
      }
      receipts.v := receipts.v[IdOf(c, tx) := Receipt(e, tx.fee, feePaid, tx.fee - feePaid)];
      return Success(feePaid);
    }

    method RunContract(c: Crypto, tx: Transaction, blockHeight: int) returns (e: Uvm.Execution)
      requires tx.payload.ExecuteCode? && ExecuteError(View(), tx).None?
      ensures e == Execution(c, View(), tx, blockHeight)
    {
      hide Uvm.Execute, AuthorizationsFor, EscrowedBalances, TargetOf;
      var target := TargetOf(c, View(), tx);
      var index := AuthorizationIndex(tx.receiver, target.codeHash, blockHeight);
      var ctx := Uvm.Context(tx.sender, c.addressWord(tx.sender), tx.receiver, commitments.v, revealed.v, index,
                             target.metadata, target.input, blockHeight, c.sha256);
      e := UvmMachine.ExecuteProgram(if target.source.Code? then Some(target.source.program) else None, ctx,
                                     tx.payload.gasLimit.value, Get(contractStorage.v, tx.receiver, map[]),
                                     EscrowedBalances(View(), tx));
    }

    // Changes the state by one transaction, or leaves it and the fees alone and says why.
    method ApplyTransaction(c: Crypto, tx: Transaction, blockHeight: int, collector: FeeCollector?) returns (error: Option<TxError>)
      modifies Parts(), collector
      ensures match Apply(c, old(View()), tx, blockHeight)
              case Failure(e) =>
                && error == Some(e) && View() == old(View())
                && (collector != null ==> collector.fees == old(collector.fees))
              case Success(a) =>
                && error == None && View() == a.state
                && (collector != null ==>
                      collector.fees == old(collector.fees) + (if IsReward(tx) then [] else [a.feePaid]))
    {
      hide AuthenticityError, ApplyReward, ApplyTransfer, ApplyCommit, ApplyReveal, ApplyAuthorize, ApplyDeploy, ApplyExecute;
      var unauthentic := AuthenticityError(c, tx);
      if unauthentic.Some? {
        return unauthentic;
      }
      if tx.fee < 0.0 {
        return Some(NegativeFee);
      }
      var r;
      if IsReward(tx) {
        r := DoReward(tx);
      } else if tx.sender == "" {
        return Some(NoSender);
      } else if tx.nonce != Get(nonces.v, tx.sender, 0) {
        return Some(WrongNonce(Get(nonces.v, tx.sender, 0)));
      } else {
        match tx.payload {
          case TransferFunds => r := DoTransfer(tx);
          case CommitHash(_, _) => r := DoCommit(tx);
          case RevealSeed(_, _, _) => r := DoReveal(c, tx);
          case AuthorizeUse(_, _, _, _) => r := DoAuthorize(tx, blockHeight);
          case DeployCode(_, _, _, _) => r := DoDeploy(c, tx);
          case ExecuteCode(_, _, _, _, _) => r := DoExecute(c, tx, blockHeight);
          case OtherKind(kind) => r := Failure(UnsupportedKind(kind));
        }
      }
      if r.Failure? {
        return Some(r.error);
      }
      if collector != null && !IsReward(tx) {
        collector.fees := collector.fees + [r.value];
      }
      return None;
    }
  }

  // Merged, except that the changes of some accounts are still to come.
  ghost function MergedBut(balances: map<string, real>, changes: map<string, real>, todo: set<string>): map<string, real> {
    Merged(balances, changes - todo)
  }

  lemma MergedNext(balances: map<string, real>, changes: map<string, real>, todo: set<string>, a: string)
    requires a in todo && todo <= changes.Keys
    ensures MergedBut(balances, changes, todo - {a})
         == MergedBut(balances, changes, todo)[a := Bal(MergedBut(balances, changes, todo), a) + changes[a]]
  {
  }

  lemma MergedAll(balances: map<string, real>, changes: map<string, real>)
    ensures MergedBut(balances, changes, {}) == Merged(balances, changes)
    ensures MergedBut(balances, changes, changes.Keys) == balances
  {
    assert changes - {} == changes;
    assert changes - changes.Keys == map[];
  }
}

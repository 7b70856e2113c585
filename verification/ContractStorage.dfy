/** Contract storage along a chain: who writes it, and what that means for a settled coinflip. */
module ContractStorage {
  import opened Base
  import opened Ledger
  import opened LedgerTheorems
  import opened LedgerAuthority
  import opened Blocks
  import opened BlockTheorems
  import Uvm
  import UvmRules
  import Coinflip

  function StorageOf(s: State, address: string): map<string, int> {
    Get(s.contractStorage, address, map[])
  }

  // The storage of an address changes only by a successful run there; deployment keeps what is
  // already there.
  lemma OnlyRunsWriteStorage(c: Crypto, s: State, tx: Transaction, height: int, address: string)
    requires Apply(c, s, tx, height).Success?
    ensures var s' := Apply(c, s, tx, height).value.state;
            if RunsAt(tx, address)
            then && ExecuteError(s, tx).None?
                 && var e := Execution(c, s, tx, height);
                    StorageOf(s', address) == if e.success then e.storage else StorageOf(s, address)
            else StorageOf(s', address) == StorageOf(s, address)
  {
    hide AuthenticityError, Execution, FuelFee, Executed, ApplyCommit, ApplyReveal, ApplyAuthorize, ApplyDeploy, Bal, Credited, StorageOf;
    if IsReward(tx) || tx.payload.TransferFunds? {
      SameStorage(s, Apply(c, s, tx, height).value.state, address);
    } else if tx.payload.ExecuteCode? {
      var e := Execution(c, s, tx, height);
      ExecutedWritesStorage(c, s, tx, e, FuelFee(tx, e.gasUsed), address);
    } else {
      RecordedKind(c, s, tx, height);
      RecordsKeepStorage(c, s, tx, height, address);
      if tx.payload.DeployCode? {
        DeploymentKeepsStorage(c, s, tx, address);
      }
    }
  }

  predicate RunsAt(tx: Transaction, address: string) {
    !IsReward(tx) && tx.payload.ExecuteCode? && tx.receiver == address
  }

  lemma SameStorage(s: State, s': State, address: string)
    requires s'.contractStorage == s.contractStorage
    ensures StorageOf(s', address) == StorageOf(s, address)
  {
  }

  lemma RecordsKeepStorage(c: Crypto, s: State, tx: Transaction, height: int, address: string)
    ensures tx.payload.CommitHash? && ApplyCommit(s, tx).Success? ==>
              StorageOf(ApplyCommit(s, tx).value.state, address) == StorageOf(s, address)
    ensures tx.payload.RevealSeed? && ApplyReveal(c, s, tx).Success? ==>
              StorageOf(ApplyReveal(c, s, tx).value.state, address) == StorageOf(s, address)
    ensures tx.payload.AuthorizeUse? && ApplyAuthorize(s, tx, height).Success? ==>
              StorageOf(ApplyAuthorize(s, tx, height).value.state, address) == StorageOf(s, address)
  {
    hide Bal, Put, CommitError, AuthorizeError;
  }

  // A contract starts with the storage its address has at deployment, empty or not.
  lemma DeploymentKeepsStorage(c: Crypto, s: State, tx: Transaction, address: string)
    requires tx.payload.DeployCode? && ApplyDeploy(c, s, tx).Success?
    ensures StorageOf(ApplyDeploy(c, s, tx).value.state, address) == StorageOf(s, address)
  {
    hide Bal, DeployError;
  }

  lemma ExecutedWritesStorage(c: Crypto, s: State, tx: Transaction, e: Uvm.Execution, feePaid: real, address: string)
    ensures StorageOf(Executed(c, s, tx, e, feePaid), address)
         == if e.success && address == tx.receiver then e.storage else StorageOf(s, address)
  {
    hide Credited, Merged, Bal;
  }

  // ---- A settled game on the chain --------------------------------------------------------

  // The game's contract is deployed and its storage says that it is settled.
  ghost predicate Over(s: State, address: string, g: Coinflip.Game) {
    && address in s.contracts && s.contracts[address].program == Coinflip.CoinflipProgram(g)
    && Coinflip.SettledIn(StorageOf(s, address))
  }

  // If the transaction runs the contract, the run moves nothing.
  ghost predicate Idle(c: Crypto, s: State, tx: Transaction, height: int, address: string) {
    RunsAt(tx, address) && ExecuteError(s, tx).None? ==>
      var e := Execution(c, s, tx, height); e.balanceChanges == map[] && e.transfers == []
  }

  // A run of the deployed contract is a run of the game on its storage.
  lemma RunsTheGame(c: Crypto, s: State, tx: Transaction, height: int, address: string, g: Coinflip.Game)
    requires RunsAt(tx, address) && ExecuteError(s, tx).None?
    requires address in s.contracts && s.contracts[address].program == Coinflip.CoinflipProgram(g)
    ensures Execution(c, s, tx, height) == Uvm.Execute(Some(Coinflip.CoinflipProgram(g)), ExecutionContext(c, s, tx, TargetOf(c, s, tx), height),
                                                       tx.payload.gasLimit.value, StorageOf(s, address), EscrowedBalances(s, tx))
    ensures tx.payload.gasLimit.value >= 0
    ensures ExecutionContext(c, s, tx, TargetOf(c, s, tx), height).contractAddress == address
  {
    hide Uvm.Execute, AuthorizationsFor, Coinflip.CoinflipProgram;
  }

  lemma ApplyStaysOver(c: Crypto, s: State, tx: Transaction, height: int, address: string, g: Coinflip.Game)
    requires Over(s, address, g) && Apply(c, s, tx, height).Success?
    ensures Over(Apply(c, s, tx, height).value.state, address, g) && Idle(c, s, tx, height, address)
  {
    hide Apply, Execution, Coinflip.CoinflipProgram, Coinflip.SettledIn, StorageOf, Uvm.Execute, ExecutionContext, TargetOf;
    ApplyKeepsRecords(c, s, tx, height);
    OnlyRunsWriteStorage(c, s, tx, height, address);
    if RunsAt(tx, address) {
      RunsTheGame(c, s, tx, height, address, g);
      Coinflip.SettledMovesNothing(ExecutionContext(c, s, tx, TargetOf(c, s, tx), height), g, tx.payload.gasLimit.value,
                                   StorageOf(s, address), EscrowedBalances(s, tx));
    }
  }

  // A run of the deployed game that moves money settles it.
  lemma PaidRunIsOver(c: Crypto, s: State, tx: Transaction, height: int, address: string, g: Coinflip.Game)
    requires RunsAt(tx, address) && Apply(c, s, tx, height).Success? && NonNegative(s.balances) && Coinflip.Proper(g, address)
    requires address in s.contracts && s.contracts[address].program == Coinflip.CoinflipProgram(g)
    requires ExecuteError(s, tx).None? ==> var e := Execution(c, s, tx, height); e.success && e.balanceChanges != map[]
    ensures Over(Apply(c, s, tx, height).value.state, address, g)
  {
    hide Apply, Execution, Coinflip.CoinflipProgram, Coinflip.SettledIn, StorageOf, Uvm.Execute, ExecutionContext, TargetOf, Coinflip.Proper;
    ApplyKeepsRecords(c, s, tx, height);
    OnlyRunsWriteStorage(c, s, tx, height, address);
    RunsTheGame(c, s, tx, height, address, g);
    EscrowIsCovered(s, tx);
    Coinflip.PayingSettles(ExecutionContext(c, s, tx, TargetOf(c, s, tx), height), g, tx.payload.gasLimit.value,
                           StorageOf(s, address), EscrowedBalances(s, tx));
  }

  lemma {:induction false} SequenceStaysOver(c: Crypto, s: State, txs: seq<Transaction>, height: int, address: string, g: Coinflip.Game)
    requires Over(s, address, g) && ApplyAll(c, s, txs, height).Success?
    ensures Over(ApplyAll(c, s, txs, height).value.state, address, g)
    ensures forall j :: 0 <= j < |txs| ==> Idle(c, Before(c, s, txs, j, height), txs[j], height, address)
  {
    hide Apply, Over, Idle;
    if txs != [] {
      var n, front := |txs| - 1, txs[..|txs| - 1];
      SequenceStaysOver(c, s, front, height, address, g);
      ApplyStaysOver(c, ApplyAll(c, s, front, height).value.state, txs[n], height, address, g);
      forall j | 0 <= j < |txs|
        ensures Idle(c, Before(c, s, txs, j, height), txs[j], height, address)
      {
        if j < n {
          assert front[..j] == txs[..j] && front[j] == txs[j];
        }
      }
    }
  }

  // Once a game is settled on a branch it stays settled, and in every later block no run of it
  // moves anything.
  lemma {:induction false} SettledOnTheBranch(r: Rules, branch: seq<Block>, n: nat, address: string, g: Coinflip.Game)
    requires 0 < n <= |branch| && Replay(r, branch).Success?
    requires Replay(r, branch[..n]).Success? ==> Over(Replay(r, branch[..n]).value, address, g)
    ensures Over(Replay(r, branch).value, address, g)
    ensures n < |branch| ==>
              var b, front := branch[|branch| - 1], branch[..|branch| - 1];
              && Replay(r, front).Success?
              && forall j :: 0 <= j < |b.transactions| ==>
                   Idle(r.crypto, Before(r.crypto, Replay(r, front).value.(height := b.id), b.transactions, j, b.id), b.transactions[j], b.id, address)
    decreases |branch|
  {
    hide ApplyAll, HeaderError, GenesisError, Over, Idle, Before;
    if n == |branch| {
      assert branch[..n] == branch;
    } else {
      var b, front := branch[|branch| - 1], branch[..|branch| - 1];
      assert branch[..n] == front[..n];
      SettledOnTheBranch(r, front, n, address, g);
      HeightDoesNotMatter(Replay(r, front).value, b.id, address, g);
      SequenceStaysOver(r.crypto, Replay(r, front).value.(height := b.id), b.transactions, b.id, address, g);
    }
  }

  lemma HeightDoesNotMatter(s: State, height: int, address: string, g: Coinflip.Game)
    ensures Over(s.(height := height), address, g) <==> Over(s, address, g)
  {
  }

  // ---- Storage before deployment ----------------------------------------------------------

  // If the transaction runs at the address, the run leaves the storage empty or fails.
  ghost predicate LeavesNothing(c: Crypto, s: State, tx: Transaction, height: int, address: string) {
    RunsAt(tx, address) && ExecuteError(s, tx).None? ==>
      var e := Execution(c, s, tx, height); !e.success || e.storage == map[]
  }

  ghost predicate AllLeaveNothing(c: Crypto, s: State, txs: seq<Transaction>, height: int, address: string) {
    forall j :: 0 <= j < |txs| ==> LeavesNothing(c, Before(c, s, txs, j, height), txs[j], height, address)
  }

  lemma {:induction false} SequenceLeavesNothing(c: Crypto, s: State, txs: seq<Transaction>, height: int, address: string)
    requires ApplyAll(c, s, txs, height).Success? && StorageOf(s, address) == map[] && AllLeaveNothing(c, s, txs, height, address)
    ensures StorageOf(ApplyAll(c, s, txs, height).value.state, address) == map[]
  {
    hide Apply, Execution, ExecuteError, StorageOf;
    if txs != [] {
      var n, front := |txs| - 1, txs[..|txs| - 1];
      forall j | 0 <= j < |front|
        ensures LeavesNothing(c, Before(c, s, front, j, height), front[j], height, address)
      {
        assert front[..j] == txs[..j] && front[j] == txs[j];
      }
      SequenceLeavesNothing(c, s, front, height, address);
      assert txs[..n] == front && LeavesNothing(c, Before(c, s, txs, n, height), txs[n], height, address);
      OnlyRunsWriteStorage(c, Before(c, s, txs, n, height), txs[n], height, address);
    }
  }

  // The state in which the transactions of a branch's last block start.
  ghost function StartOfLast(r: Rules, branch: seq<Block>): State
    requires branch != []
  {
    var parent := Replay(r, branch[..|branch| - 1]);
    (if parent.Success? then parent.value else EMPTY_STATE).(height := branch[|branch| - 1].id)
  }

  // No run of the branch leaves storage at the address.
  ghost predicate BranchLeavesNothing(r: Rules, branch: seq<Block>, address: string) {
    branch != [] ==>
      var b := branch[|branch| - 1];
      BranchLeavesNothing(r, branch[..|branch| - 1], address) && AllLeaveNothing(r.crypto, StartOfLast(r, branch), b.transactions, b.id, address)
  }

  // Deploying keeps the storage the address has; as long as no run of the branch has left any, there
  // is none.
  lemma {:induction false} UntouchedStorageIsEmpty(r: Rules, branch: seq<Block>, address: string)
    requires Replay(r, branch).Success? && BranchLeavesNothing(r, branch, address)
    ensures StorageOf(Replay(r, branch).value, address) == map[]
  {
    hide ApplyAll, HeaderError, GenesisError, AllLeaveNothing;
    var b, front := branch[|branch| - 1], branch[..|branch| - 1];
    if |branch| > 1 {
      UntouchedStorageIsEmpty(r, front, address);
    } else {
      assert Replay(r, front).Failure?;
    }
    SequenceLeavesNothing(r.crypto, StartOfLast(r, branch), b.transactions, b.id, address);
  }

  // A program that stores a word.
  const NOTE: Uvm.Program := [
    Uvm.Instruction(Uvm.PUSH, [Uvm.Operand.Word(1)]),
    Uvm.Instruction(Uvm.STORE, [Uvm.Key("settled")])
  ]

  function NoteCall(address: string): Transaction {
    Transaction("caller", address, 0.0, 0.0, 0, Some((3, 5)), Some("signature"),
                ExecuteCode(address, Code(NOTE), Some(200), Some(0.0), false), "", 2)
  }

  function Deployment(address: string, program: Uvm.Program, codeHash: string): Transaction {
    Transaction("deployer", address, 0.0, 0.0, 0, Some((7, 9)), Some("signature"),
                DeployCode(address, Code(program), NO_METADATA, codeHash), "", 2)
  }

  // A run at the address a contract is to have leaves storage that the contract then starts with:
  // even a coinflip can start out settled.
  lemma ContractMayStartWithStorage(c: Crypto, height: int, g: Coinflip.Game)
    requires var codeHash := c.codeHash(Code(Coinflip.CoinflipProgram(g)), NO_METADATA);
             var address := c.contractAddress("deployer", 0, codeHash);
             && address != "" && SignedBy(c, NoteCall(address), "caller")
             && SignedBy(c, Deployment(address, Coinflip.CoinflipProgram(g), codeHash), "deployer")
    ensures var codeHash := c.codeHash(Code(Coinflip.CoinflipProgram(g)), NO_METADATA);
            var address := c.contractAddress("deployer", 0, codeHash);
            var txs := [NoteCall(address), Deployment(address, Coinflip.CoinflipProgram(g), codeHash)];
            ApplyAll(c, EMPTY_STATE, txs, height).Success? && Over(ApplyAll(c, EMPTY_STATE, txs, height).value.state, address, g)
  {
    hide ApplyAll, Apply, Coinflip.CoinflipProgram, Over;
    var program := Coinflip.CoinflipProgram(g);
    var codeHash := c.codeHash(Code(program), NO_METADATA);
    var address := c.contractAddress("deployer", 0, codeHash);
    var note, deployment := NoteCall(address), Deployment(address, program, codeHash);
    NoteApplies(c, address, height);
    var noted := Apply(c, EMPTY_STATE, note, height).value.state;
    DeploymentApplies(c, noted, address, program, codeHash, height);
    TwoInOrder(c, EMPTY_STATE, note, deployment, height);
    DeployedOverNote(Apply(c, noted, deployment, height).value.state, address, g);
  }

  lemma TwoInOrder(c: Crypto, s: State, tx: Transaction, other: Transaction, height: int)
    requires Apply(c, s, tx, height).Success? && Apply(c, Apply(c, s, tx, height).value.state, other, height).Success?
    ensures ApplyAll(c, s, [tx, other], height).Success?
    ensures ApplyAll(c, s, [tx, other], height).value.state == Apply(c, Apply(c, s, tx, height).value.state, other, height).value.state
  {
    hide Apply;
    assert [tx, other][..1] == [tx] && [tx][..0] == [];
    assert ApplyAll(c, s, [], height) == Success(Applied(s, 0.0));
    assert ApplyAll(c, s, [tx], height).Success?;
  }

  lemma DeployedOverNote(s: State, address: string, g: Coinflip.Game)
    requires address in s.contracts && s.contracts[address].program == Coinflip.CoinflipProgram(g)
    requires Get(StorageOf(s, address), Coinflip.SETTLED, 0) == 1
    ensures Over(s, address, g)
  {
    hide Coinflip.CoinflipProgram;
    assert 1 % Uvm.WORD_MODULUS == 1;
  }

  lemma NoteRun(ctx: Uvm.Context, balances: map<string, real>)
    ensures var e := Uvm.Execute(Some(NOTE), ctx, 200, map[], balances); e.success && Get(e.storage, Coinflip.SETTLED, 0) == 1
  {
    hide Uvm.Run, Uvm.Step;
    var m := Uvm.InitialMemory(map[], balances);
    var m1 := UvmRules.Push(NOTE, ctx, m, 0, 200, 1);
    var m2 := UvmRules.Store(NOTE, ctx, m1, 1, 199, "settled");
    NoteEnds(ctx, m2);
  }

  lemma NoteEnds(ctx: Uvm.Context, m: Uvm.Memory)
    ensures Uvm.Run(NOTE, ctx, m, 2, 99) == Uvm.Final(Uvm.Completed, m, 2, 99)
  {
  }

  lemma NoteApplies(c: Crypto, address: string, height: int)
    requires address != "" && SignedBy(c, NoteCall(address), "caller")
    ensures var r := Apply(c, EMPTY_STATE, NoteCall(address), height);
            && r.Success? && Get(StorageOf(r.value.state, address), Coinflip.SETTLED, 0) == 1
            && r.value.state.contracts == map[] && NonceOf(r.value.state, "deployer") == 0 && Bal(r.value.state.balances, "deployer") >= 0.0
  {
    hide Uvm.Execute, AuthorizationsFor, Executed, FuelFee, StorageOf;
    var s, tx := EMPTY_STATE, NoteCall(address);
    assert ExecuteError(s, tx).None?;
    NoteRun(ExecutionContext(c, s, tx, TargetOf(c, s, tx), height), EscrowedBalances(s, tx));
    OnlyRunsWriteStorage(c, s, tx, height, address);
    var e := Execution(c, s, tx, height);
    ExecutedKeepsContracts(c, s, tx, e, FuelFee(tx, e.gasUsed));
    ApplyKeepsRecords(c, s, tx, height);
    assert "caller" != "deployer";
    ApplyConserves(c, s, tx, height);
  }

  lemma ExecutedKeepsContracts(c: Crypto, s: State, tx: Transaction, e: Uvm.Execution, feePaid: real)
    ensures Executed(c, s, tx, e, feePaid).contracts == s.contracts
  {
    hide Credited, Merged, Bal;
  }

  lemma DeploymentApplies(c: Crypto, s: State, address: string, program: Uvm.Program, codeHash: string, height: int)
    requires address != "" && codeHash == c.codeHash(Code(program), NO_METADATA) && address == c.contractAddress("deployer", 0, codeHash)
    requires SignedBy(c, Deployment(address, program, codeHash), "deployer")
    requires s.contracts == map[] && NonceOf(s, "deployer") == 0 && Bal(s.balances, "deployer") >= 0.0
    ensures var r := Apply(c, s, Deployment(address, program, codeHash), height);
            && r.Success? && StorageOf(r.value.state, address) == StorageOf(s, address)
            && address in r.value.state.contracts && r.value.state.contracts[address].program == program
  {
    hide Bal, Charged;
    assert DeployError(c, Deployment(address, program, codeHash), s).None?;
  }
}

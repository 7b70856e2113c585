/** Mining a block from the pool: crediting the reward first changes neither which of the selected
    transactions apply nor the fees they pay, unless a contract run has hit the miner's balance. */
module BlockAssembly {
  import opened Base
  import opened Ledger
  import opened LedgerTheorems
  import opened Blocks
  import opened BlockTheorems
  import opened Mempool
  import U = Uvm

  // ---- Richer balances --------------------------------------------------------------------

  // The same balances, except that one account holds more.
  ghost predicate Richer(poor: map<string, real>, rich: map<string, real>, who: string, amount: real) {
    amount >= 0.0 && forall a :: Bal(rich, a) == Bal(poor, a) + (if a == who then amount else 0.0)
  }

  lemma CreditKeepsRicher(poor: map<string, real>, rich: map<string, real>, who: string, amount: real, account: string, delta: real)
    requires Richer(poor, rich, who, amount)
    ensures Richer(Credited(poor, account, delta), Credited(rich, account, delta), who, amount)
  {
    CreditMoves(poor, account, delta);
    CreditMoves(rich, account, delta);
  }

  // ---- Contract runs ----------------------------------------------------------------------

  function With(r: U.StepResult, balances: map<string, real>): U.StepResult {
    U.StepResult(r.m.(balances := balances), r.signal)
  }

  lemma PushIgnoresBalances(m: U.Memory, balances: map<string, real>)
    ensures forall v :: U.Pushed(m.(balances := balances), v) == With(U.Pushed(m, v), balances)
  {
    hide U.Normalize;
  }

  lemma BinaryIgnoresBalances(op: U.Opcode, m: U.Memory, balances: map<string, real>)
    requires U.IsBinary(op)
    ensures U.StepBinary(op, m.(balances := balances)) == With(U.StepBinary(op, m), balances)
  {
    hide U.Pushed, U.BinaryValue;
    if |m.stack| >= 2 {
      PushIgnoresBalances(U.Popped(U.Popped(m)), balances);
    }
  }

  lemma StackIgnoresBalances(op: U.Opcode, operands: seq<U.Operand>, ctx: U.Context, m: U.Memory, balances: map<string, real>)
    requires U.IsStack(op) && |operands| == U.OperandCount(op)
    ensures U.StepStack(op, operands, ctx, m.(balances := balances)) == With(U.StepStack(op, operands, ctx, m), balances)
  {
    hide U.Pushed, U.IntOperand;
    PushIgnoresBalances(m, balances);
    if m.stack != [] {
      PushIgnoresBalances(U.Popped(m), balances);
    }
  }

  lemma KeyedIgnoresBalances(op: U.Opcode, operand: U.Operand, ctx: U.Context, m: U.Memory, balances: map<string, real>)
    requires U.IsKeyed(op)
    ensures U.StepKeyed(op, operand, ctx, m.(balances := balances)) == With(U.StepKeyed(op, operand, ctx, m), balances)
  {
    hide U.Pushed, U.KeyOperand, U.ReadWord;
    PushIgnoresBalances(m, balances);
  }

  lemma WalletIgnoresBalances(op: U.Opcode, operands: seq<U.Operand>, ctx: U.Context, m: U.Memory, balances: map<string, real>)
    requires U.IsWallet(op) && |operands| == 2
    ensures U.StepWallet(op, operands, ctx, m.(balances := balances)) == With(U.StepWallet(op, operands, ctx, m), balances)
  {
    hide U.Pushed, U.KeyOperand;
    PushIgnoresBalances(m, balances);
  }

  lemma ControlIgnoresBalances(op: U.Opcode, operands: seq<U.Operand>, m: U.Memory, balances: map<string, real>, n: nat)
    requires U.IsControl(op) && |operands| == U.OperandCount(op)
    ensures U.StepControl(op, operands, m.(balances := balances), n) == With(U.StepControl(op, operands, m, n), balances)
  {
    hide U.JumpTarget;
  }

  lemma StepIgnoresBalances(ins: U.Instruction, ctx: U.Context, m: U.Memory, balances: map<string, real>, n: nat)
    requires !ins.op.TRANSFER_FROM?
    ensures U.Step(ins, ctx, m.(balances := balances), n) == With(U.Step(ins, ctx, m, n), balances)
  {
    hide U.StepBinary, U.StepStack, U.StepKeyed, U.StepWallet, U.StepControl, U.StepTransfer;
    if |ins.operands| == U.OperandCount(ins.op) {
      if U.IsBinary(ins.op) {
        BinaryIgnoresBalances(ins.op, m, balances);
      } else if U.IsStack(ins.op) {
        StackIgnoresBalances(ins.op, ins.operands, ctx, m, balances);
      } else if U.IsKeyed(ins.op) {
        KeyedIgnoresBalances(ins.op, ins.operands[0], ctx, m, balances);
      } else if U.IsWallet(ins.op) {
        WalletIgnoresBalances(ins.op, ins.operands, ctx, m, balances);
      } else if U.IsControl(ins.op) {
        ControlIgnoresBalances(ins.op, ins.operands, m, balances, n);
      }
    }
  }

  predicate Overdraws(signal: U.Signal, who: string) {
    signal == Failure(U.Error(U.SourceBalanceTooLow(who)))
  }

  lemma MoveKeepsRicher(m: U.Memory, rich: map<string, real>, ctx: U.Context, t: U.Transfer, who: string, amount: real)
    requires Richer(m.balances, rich, who, amount) && !Overdraws(U.Moved(m, ctx, t).signal, who)
    ensures var r, r' := U.Moved(m, ctx, t), U.Moved(m.(balances := rich), ctx, t);
            Richer(r.m.balances, r'.m.balances, who, amount) && r' == With(r, r'.m.balances)
  {
    BookKeepsRicher(m, rich, t, who, amount);
    hide U.MaySpend, U.Booked;
  }

  lemma BookKeepsRicher(m: U.Memory, rich: map<string, real>, t: U.Transfer, who: string, amount: real)
    requires Richer(m.balances, rich, who, amount)
    ensures var b, b' := U.Booked(m, t), U.Booked(m.(balances := rich), t);
            Richer(b.balances, b'.balances, who, amount) && b' == b.(balances := b'.balances)
  {
    hide Richer;
    var out := -(t.amount as real);
    CreditKeepsRicher(m.balances, rich, who, amount, t.source, out);
    CreditKeepsRicher(Credited(m.balances, t.source, out), Credited(rich, t.source, out), who, amount, t.receiver, t.amount as real);
  }

  lemma StepKeepsRicher(ins: U.Instruction, ctx: U.Context, m: U.Memory, rich: map<string, real>, n: nat, who: string, amount: real)
    requires Richer(m.balances, rich, who, amount) && !Overdraws(U.Step(ins, ctx, m, n).signal, who)
    ensures var r, r' := U.Step(ins, ctx, m, n), U.Step(ins, ctx, m.(balances := rich), n);
            Richer(r.m.balances, r'.m.balances, who, amount) && r' == With(r, r'.m.balances)
  {
    hide U.StepTransfer, U.StepBinary, U.StepStack, U.StepKeyed, U.StepWallet, U.StepControl, Richer;
    if !ins.op.TRANSFER_FROM? {
      StepIgnoresBalances(ins, ctx, m, rich, n);
      StepIgnoresBalances(ins, ctx, m, m.balances, n);
    } else if |ins.operands| == 3 {
      TransferKeepsRicher(ins.op, ins.operands, ctx, m, rich, who, amount);
    }
  }

  // The transfer an instruction asks for, its amount aside.
  function Asked(op: U.Opcode, operands: seq<U.Operand>, ctx: U.Context): Result<U.Transfer, U.Trap>
    requires |operands| == 3
  {
    var source :- U.AccountOperand(op, operands[0], ctx);
    var receiver :- U.AccountOperand(op, operands[1], ctx);
    var request :- U.KeyOperand(op, operands[2]);
    Success(U.Transfer(source, receiver, 0, request))
  }

  lemma TransferByAsking(op: U.Opcode, operands: seq<U.Operand>, ctx: U.Context, m: U.Memory)
    requires |operands| == 3
    ensures U.StepTransfer(op, operands, ctx, m) == match Asked(op, operands, ctx)
              case Failure(t) => U.Trapped(m, t)
              case Success(t) =>
                if m.stack == [] then U.Raise(m, U.StackUnderflow) else U.Moved(U.Popped(m), ctx, t.(amount := U.Top(m)))
  {
    hide U.Moved, U.AccountOperand, U.KeyOperand;
  }

  lemma TransferKeepsRicher(op: U.Opcode, operands: seq<U.Operand>, ctx: U.Context, m: U.Memory, rich: map<string, real>, who: string, amount: real)
    requires |operands| == 3 && Richer(m.balances, rich, who, amount) && !Overdraws(U.StepTransfer(op, operands, ctx, m).signal, who)
    ensures var r, r' := U.StepTransfer(op, operands, ctx, m), U.StepTransfer(op, operands, ctx, m.(balances := rich));
            Richer(r.m.balances, r'.m.balances, who, amount) && r' == With(r, r'.m.balances)
  {
    hide U.Moved, Richer, U.StepTransfer, Asked;
    TransferByAsking(op, operands, ctx, m);
    TransferByAsking(op, operands, ctx, m.(balances := rich));
    var asked := Asked(op, operands, ctx);
    if asked.Success? && m.stack != [] {
      MoveKeepsRicher(U.Popped(m), rich, ctx, asked.value.(amount := U.Top(m)), who, amount);
    }
  }

  // A run that does not stop on the miner's balance goes the same way when the miner has more.
  lemma {:induction false} RunKeepsRicher(program: U.Program, ctx: U.Context, m: U.Memory, rich: map<string, real>, pc: nat, gas: nat, who: string, amount: real)
    requires Richer(m.balances, rich, who, amount)
    requires U.Run(program, ctx, m, pc, gas).ending != U.Trapping(U.Error(U.SourceBalanceTooLow(who)))
    ensures var f, f' := U.Run(program, ctx, m, pc, gas), U.Run(program, ctx, m.(balances := rich), pc, gas);
            f' == f.(m := f.m.(balances := f'.m.balances)) && Richer(f.m.balances, f'.m.balances, who, amount)
    decreases gas
  {
    hide U.Step, Richer;
    if pc < |program| {
      var cost := U.GasCost(program[pc].op);
      if cost.Some? && cost.value <= gas {
        var r := U.Step(program[pc], ctx, m, |program|);
        StepKeepsRicher(program[pc], ctx, m, rich, |program|, who, amount);
        if r.signal.Success? && !program[pc].op.HALT? {
          U.GoingOnCosts(program[pc], ctx, m, |program|);
          var rich' := U.Step(program[pc], ctx, m.(balances := rich), |program|).m.balances;
          RunKeepsRicher(program, ctx, r.m, rich', U.NextPc(pc, r.signal.value), gas - cost.value, who, amount);
        }
      }
    }
  }

  lemma ExecutionKeepsRicher(source: Option<U.Program>, ctx: U.Context, gasLimit: int, storage: map<string, int>,
                             poor: map<string, real>, rich: map<string, real>, who: string, amount: real)
    requires Richer(poor, rich, who, amount)
    requires U.Execute(source, ctx, gasLimit, storage, poor).error != Some(U.SourceBalanceTooLow(who))
    ensures U.Execute(source, ctx, gasLimit, storage, rich) == U.Execute(source, ctx, gasLimit, storage, poor)
  {
    hide U.Run, Richer;
    if source.Some? && gasLimit >= 0 {
      var m := U.InitialMemory(storage, poor);
      assert m.(balances := rich) == U.InitialMemory(storage, rich);
      RunKeepsRicher(source.value, ctx, m, rich, 0, gasLimit, who, amount);
    }
  }

  // ---- Transactions -----------------------------------------------------------------------

  // The same state, except that one account holds more and the height may differ.
  ghost predicate RicherState(poor: State, rich: State, who: string, amount: real) {
    rich == poor.(balances := rich.balances, height := rich.height) && Richer(poor.balances, rich.balances, who, amount)
  }

  // Not a contract run that stops because an account holds too little.
  predicate Steady(c: Crypto, s: State, tx: Transaction, height: int, who: string) {
    tx.payload.ExecuteCode? && ExecuteError(s, tx).None? ==> Execution(c, s, tx, height).error != Some(U.SourceBalanceTooLow(who))
  }

  lemma EscrowKeepsRicher(poor: State, rich: State, tx: Transaction, who: string, amount: real)
    requires RicherState(poor, rich, who, amount)
    ensures Richer(EscrowedBalances(poor, tx), EscrowedBalances(rich, tx), who, amount)
  {
    hide Richer;
    var cost := tx.amount + tx.fee;
    var p, r := Credited(poor.balances, tx.sender, -cost), Credited(rich.balances, tx.sender, -cost);
    CreditKeepsRicher(poor.balances, rich.balances, who, amount, tx.sender, -cost);
    CreditKeepsRicher(p, r, who, amount, tx.receiver, tx.amount);
  }

  lemma MergeKeepsRicher(poor: map<string, real>, rich: map<string, real>, changes: map<string, real>, who: string, amount: real)
    requires Richer(poor, rich, who, amount)
    ensures Richer(Merged(poor, changes), Merged(rich, changes), who, amount)
  {
    MergedAt(poor, changes);
    MergedAt(rich, changes);
  }

  lemma ChargeKeepsRicher(poor: State, rich: State, tx: Transaction, cost: real, who: string, amount: real)
    requires RicherState(poor, rich, who, amount)
    ensures RicherState(Charged(poor, tx, cost), Charged(rich, tx, cost), who, amount)
  {
    hide Richer;
    CreditKeepsRicher(poor.balances, rich.balances, who, amount, tx.sender, -cost);
  }

  lemma ExecutedKeepsRicher(c: Crypto, poor: State, rich: State, tx: Transaction, e: U.Execution, feePaid: real, who: string, amount: real)
    requires RicherState(poor, rich, who, amount)
    ensures RicherState(Executed(c, poor, tx, e, feePaid), Executed(c, rich, tx, e, feePaid), who, amount)
  {
    hide Richer, Merged, Credited;
    ChargeKeepsRicher(poor, rich, tx, feePaid, who, amount);
    var p, r := Charged(poor, tx, feePaid).balances, Charged(rich, tx, feePaid).balances;
    CreditKeepsRicher(p, r, who, amount, tx.sender, -tx.amount);
    var p', r' := Credited(p, tx.sender, -tx.amount), Credited(r, tx.sender, -tx.amount);
    CreditKeepsRicher(p', r', who, amount, tx.receiver, tx.amount);
    MergeKeepsRicher(p', r', e.balanceChanges, who, amount);
    MergeKeepsRicher(Credited(p', tx.receiver, tx.amount), Credited(r', tx.receiver, tx.amount), e.balanceChanges, who, amount);
  }

  lemma ExecuteKeepsRicher(c: Crypto, poor: State, rich: State, tx: Transaction, height: int, who: string, amount: real)
    requires RicherState(poor, rich, who, amount) && tx.payload.ExecuteCode? && Steady(c, poor, tx, height, who)
    requires ApplyExecute(c, poor, tx, height).Success?
    ensures var r, r' := ApplyExecute(c, poor, tx, height), ApplyExecute(c, rich, tx, height);
            r'.Success? && r'.value.feePaid == r.value.feePaid && RicherState(r.value.state, r'.value.state, who, amount)
  {
    hide U.Execute, Executed, FuelFee, AuthorizationsFor;
    var target := TargetOf(c, poor, tx);
    assert ExecuteError(rich, tx).None?;
    EscrowKeepsRicher(poor, rich, tx, who, amount);
    ExecutionKeepsRicher(if target.source.Code? then Some(target.source.program) else None,
                         ExecutionContext(c, poor, tx, target, height), tx.payload.gasLimit.value,
                         Get(poor.contractStorage, tx.receiver, map[]),
                         EscrowedBalances(poor, tx), EscrowedBalances(rich, tx), who, amount);
    var e := Execution(c, poor, tx, height);
    assert Execution(c, rich, tx, height) == e;
    ExecutedKeepsRicher(c, poor, rich, tx, e, FuelFee(tx, e.gasUsed), who, amount);
  }

  lemma PayKeepsRicher(poor: State, rich: State, tx: Transaction, error: Option<TxError>, who: string, amount: real)
    requires RicherState(poor, rich, who, amount) && PayFee(poor, tx, error).Success?
    ensures var r' := PayFee(rich, tx, error);
            r'.Success? && RicherState(PayFee(poor, tx, error).value, r'.value, who, amount)
  {
    ChargeKeepsRicher(poor, rich, tx, tx.fee, who, amount);
  }

  lemma TransferTxKeepsRicher(poor: State, rich: State, tx: Transaction, who: string, amount: real)
    requires RicherState(poor, rich, who, amount) && ApplyTransfer(poor, tx).Success?
    ensures var r, r' := ApplyTransfer(poor, tx), ApplyTransfer(rich, tx);
            r'.Success? && r'.value.feePaid == r.value.feePaid && RicherState(r.value.state, r'.value.state, who, amount)
  {
    hide Credited;
    ChargeKeepsRicher(poor, rich, tx, tx.amount + tx.fee, who, amount);
    CreditKeepsRicher(Charged(poor, tx, tx.amount + tx.fee).balances, Charged(rich, tx, tx.amount + tx.fee).balances, who, amount, tx.receiver, tx.amount);
  }

  // The checks of commits, reveals, authorizations and deployments do not look at balances.
  lemma SameChecks(c: Crypto, poor: State, rich: State, tx: Transaction, who: string, amount: real)
    requires RicherState(poor, rich, who, amount)
    ensures match tx.payload
            case CommitHash(_, _) => CommitError(tx, rich) == CommitError(tx, poor)
            case RevealSeed(_, _, _) => RevealError(c, tx, rich) == RevealError(c, tx, poor)
            case AuthorizeUse(_, _, _, _) => AuthorizeError(tx, rich) == AuthorizeError(tx, poor)
            case DeployCode(_, _, _, _) => DeployError(c, tx, rich) == DeployError(c, tx, poor)
            case _ => true
  {
  }

  // A transaction that applies still applies, for the same fee, when one account holds more.
  lemma ApplyKeepsRicher(c: Crypto, poor: State, rich: State, tx: Transaction, height: int, who: string, amount: real)
    requires RicherState(poor, rich, who, amount) && Steady(c, poor, tx, height, who)
    requires Apply(c, poor, tx, height).Success? && !IsReward(tx)
    ensures var r, r' := Apply(c, poor, tx, height), Apply(c, rich, tx, height);
            r'.Success? && r'.value.feePaid == r.value.feePaid && RicherState(r.value.state, r'.value.state, who, amount)
  {
    hide Richer, Charged, ApplyExecute, Steady, PayFee, ApplyTransfer, Put, AuthenticityError, CommitError, RevealError, AuthorizeError, DeployError;
    SameChecks(c, poor, rich, tx, who, amount);
    match tx.payload {
      case TransferFunds => TransferTxKeepsRicher(poor, rich, tx, who, amount);
      case CommitHash(_, _) => PayKeepsRicher(poor, rich, tx, CommitError(tx, poor), who, amount);
      case RevealSeed(_, _, _) => PayKeepsRicher(poor, rich, tx, RevealError(c, tx, poor), who, amount);
      case AuthorizeUse(_, _, _, _) => PayKeepsRicher(poor, rich, tx, AuthorizeError(tx, poor), who, amount);
      case DeployCode(_, _, _, _) => PayKeepsRicher(poor, rich, tx, DeployError(c, tx, poor), who, amount);
      case ExecuteCode(_, _, _, _, _) => ExecuteKeepsRicher(c, poor, rich, tx, height, who, amount);
      case OtherKind(_) =>
    }
  }

  // ---- Blocks -----------------------------------------------------------------------------

  lemma {:induction false} ApplyAllAppend(c: Crypto, s: State, a: seq<Transaction>, b: seq<Transaction>, height: int)
    requires ApplyAll(c, s, a, height).Success?
    ensures var first := ApplyAll(c, s, a, height).value;
            ApplyAll(c, s, a + b, height) == match ApplyAll(c, first.state, b, height)
              case Failure(e) => Failure(e)
              case Success(rest) => Success(Applied(rest.state, first.feePaid + rest.feePaid))
  {
    hide Apply;
    if b == [] {
      assert a + b == a;
    } else {
      var front := b[..|b| - 1];
      ApplyAllAppend(c, s, a, front, height);
      assert (a + b)[..|a + b| - 1] == a + front;
    }
  }

  // No contract run of the sequence, each at its turn, stops because the account holds too little.
  ghost predicate SteadyAll(c: Crypto, s: State, txs: seq<Transaction>, height: int, who: string) {
    txs != [] ==>
      var front := txs[..|txs| - 1];
      SteadyAll(c, s, front, height, who)
      && (ApplyAll(c, s, front, height).Success? ==> Steady(c, ApplyAll(c, s, front, height).value.state, txs[|txs| - 1], height, who))
  }

  lemma {:induction false} WithoutExecutesSteady(c: Crypto, s: State, txs: seq<Transaction>, height: int, who: string)
    requires forall i :: 0 <= i < |txs| ==> !txs[i].payload.ExecuteCode?
    ensures SteadyAll(c, s, txs, height, who)
  {
    hide ApplyAll;
    if txs != [] {
      WithoutExecutesSteady(c, s, txs[..|txs| - 1], height, who);
    }
  }

  lemma {:induction false} SequenceKeepsRicher(c: Crypto, poor: State, rich: State, txs: seq<Transaction>, height: int, who: string, amount: real)
    requires RicherState(poor, rich, who, amount) && SteadyAll(c, poor, txs, height, who) && NoRewards(txs)
    requires ApplyAll(c, poor, txs, height).Success?
    ensures var r, r' := ApplyAll(c, poor, txs, height), ApplyAll(c, rich, txs, height);
            r'.Success? && r'.value.feePaid == r.value.feePaid && RicherState(r.value.state, r'.value.state, who, amount)
  {
    hide Apply, RicherState, Steady;
    if txs != [] {
      var front := txs[..|txs| - 1];
      SequenceKeepsRicher(c, poor, rich, front, height, who, amount);
      ApplyKeepsRicher(c, ApplyAll(c, poor, front, height).value.state, ApplyAll(c, rich, front, height).value.state,
                       txs[|txs| - 1], height, who, amount);
    }
  }

  lemma FeeIsNotNegative(c: Crypto, s: State, tx: Transaction, height: int)
    requires Apply(c, s, tx, height).Success?
    ensures Apply(c, s, tx, height).value.feePaid >= 0.0
  {
    hide AuthenticityError, Execution, Executed, PayFee;
    if tx.payload.ExecuteCode? && !IsReward(tx) {
      FuelIsNotNegative(s, tx, Execution(c, s, tx, height).gasUsed);
    }
  }

  lemma FuelIsNotNegative(s: State, tx: Transaction, gasUsed: nat)
    requires tx.payload.ExecuteCode? && ExecuteError(s, tx).None? && tx.fee >= 0.0
    ensures FuelFee(tx, gasUsed) >= 0.0
  {
    var price := tx.payload.gasPrice.value;
    if price > 0.0 {
      assert gasUsed as real * price >= 0.0;
    }
  }

  lemma {:induction false} FeesAreNotNegative(c: Crypto, s: State, txs: seq<Transaction>, height: int)
    requires ApplyAll(c, s, txs, height).Success?
    ensures ApplyAll(c, s, txs, height).value.feePaid >= 0.0
  {
    hide Apply;
    if txs != [] {
      var front := txs[..|txs| - 1];
      FeesAreNotNegative(c, s, front, height);
      FeeIsNotNegative(c, ApplyAll(c, s, front, height).value.state, txs[|txs| - 1], height);
    }
  }

  // What the search for a proof of work settles: the nonce and the hash.
  datatype Seal = Seal(nonce: int, hash: string)

  function MinedBlock(height: int, tipHash: string, selected: seq<Transaction>, fees: real,
                      miner: string, description: string, timestamp: string, seal: Seal): Block {
    Block(height, [RewardTransaction(miner, fees, timestamp)] + selected, description, tipHash, seal.nonce, seal.hash)
  }

  lemma {:induction false} OnlyOneReward(reward: Transaction, txs: seq<Transaction>)
    requires IsReward(reward) && NoRewards(txs)
    ensures Rewards([reward] + txs) == [reward] && Rewards(txs) == []
  {
    assert ([reward] + txs)[1..] == txs;
    if txs != [] {
      OnlyOneReward(reward, txs[1..]);
      assert ([reward] + txs[1..])[1..] == txs[1..];
    }
  }

  lemma RewardApplies(c: Crypto, tip: State, reward: Transaction)
    requires IsReward(reward) && reward.publicKey.None? && reward.signature.None? && reward.fee == 0.0
    requires reward.receiver != "" && reward.amount > 0.0
    ensures var h := tip.height + 1;
            var first := ApplyAll(c, tip.(height := h), [reward], h);
            && first.Success? && first.value.feePaid == 0.0
            && RicherState(tip, first.value.state, reward.receiver, reward.amount)
  {
    var start := tip.(height := tip.height + 1);
    assert [reward][..0] == [];
    assert ApplyAll(c, start, [], start.height) == Success(Applied(start, 0.0));
    CreditMoves(tip.balances, reward.receiver, reward.amount);
  }

  // A block made of the reward and a selection that applies to the tip is accepted on that tip,
  // provided its proof of work is good and no contract run of the selection has hit the miner's
  // balance.
  lemma MinedBlockIsAccepted(r: Rules, tip: State, tipHash: string, selected: seq<Transaction>,
                             miner: string, description: string, timestamp: string, seal: Seal)
    requires tip.height >= 0 && miner != "" && Replayable(r.crypto, tip, selected) && |selected| <= MAX_SELECTED
    requires SteadyAll(r.crypto, tip, selected, tip.height + 1, miner)
    ensures var applied := OnTip(r.crypto, tip, selected).value;
            var b := MinedBlock(tip.height + 1, tipHash, selected, applied.feePaid, miner, description, timestamp, seal);
            VerificationError(r, b).None? ==>
              && BuildChild(r, b, tip).Success?
              && RicherState(applied.state, BuildChild(r, b, tip).value, miner, MINING_REWARD + applied.feePaid)
  {
    hide Apply, ApplyAll, RicherState, SteadyAll, Rewards, NoRewards, VerificationError;
    var c, h := r.crypto, tip.height + 1;
    var applied := OnTip(c, tip, selected).value;
    var reward := RewardTransaction(miner, applied.feePaid, timestamp);
    var b := MinedBlock(tip.height + 1, tipHash, selected, applied.feePaid, miner, description, timestamp, seal);
    OnlyOneReward(reward, selected);
    FeesAreNotNegative(c, tip, selected, h);
    RewardApplies(c, tip, reward);
    var start := tip.(height := h);
    var credited := ApplyAll(c, start, [reward], h).value.state;
    SequenceKeepsRicher(c, tip, credited, selected, h, miner, reward.amount);
    ApplyAllAppend(c, start, [reward], selected, h);
    BuildChildIsSlowChild(r, b, tip);
  }
}

/** What holds of every run of the virtual machine, whatever the program:
    the gas limit only decides whether a run is cut short, runs are bounded by their gas,
    and balances move only by booked, authorised, conserving transfers. */
module UvmTheorems {
  import opened Base
  import opened Uvm

  // ---- Gas --------------------------------------------------------------------------------

  lemma {:induction false} RunUnderAnotherLimit(program: Program, ctx: Context, m: Memory, pc: nat, gas: nat, other: nat)
    requires !Run(program, ctx, m, pc, gas).ending.Exhausted?
    ensures var f := Run(program, ctx, m, pc, gas);
            var f' := Run(program, ctx, m, pc, other);
            if other >= gas - f.gas then f' == f.(gas := other - (gas - f.gas)) else f'.ending.Exhausted?
    decreases gas
  {
    hide Step;
    if pc < |program| {
      var cost := GasCost(program[pc].op);
      if cost.Some? {
        var r := Step(program[pc], ctx, m, |program|);
        if r.signal.Success? && !program[pc].op.HALT? {
          GoingOnCosts(program[pc], ctx, m, |program|);
          var next, left := NextPc(pc, r.signal.value), gas - cost.value;
          GasNeverGrows(program, ctx, r.m, next, left);
          if other >= cost.value {
            RunUnderAnotherLimit(program, ctx, r.m, next, left, other - cost.value);
          }
        }
      }
    }
  }

  // A run that does not exhaust its gas gives the same result under every limit that covers
  // what it used, and exhausts its gas, without effect on any balance, under every other limit.
  lemma GasLimitIndependence(source: Option<Program>, ctx: Context, limit: nat, other: nat,
                             storage: map<string, int>, balances: map<string, real>)
    requires !Execute(source, ctx, limit, storage, balances).gasExhausted
    ensures var e := Execute(source, ctx, limit, storage, balances);
            var e' := Execute(source, ctx, other, storage, balances);
            if other >= e.gasUsed
            then e' == e.(gasRemaining := other - e.gasUsed, usedAllGas := other == e.gasUsed)
            else e'.gasExhausted && !e'.success && e'.gasUsed == other && e'.balanceChanges == map[] && e'.transfers == []
  {
    if source.Some? {
      RunUnderAnotherLimit(source.value, ctx, InitialMemory(storage, balances), 0, limit, other);
      ExhaustedKeepsNothing(source.value, ctx, InitialMemory(storage, balances), 0, other);
    }
  }

  lemma {:induction false} ExhaustedKeepsNothing(program: Program, ctx: Context, m: Memory, pc: nat, gas: nat)
    ensures var f := Run(program, ctx, m, pc, gas); f.ending.Exhausted? ==> f.gas == 0
    decreases gas
  {
    hide Step;
    if pc < |program| {
      var cost := GasCost(program[pc].op);
      if cost.Some? && cost.value <= gas {
        var r := Step(program[pc], ctx, m, |program|);
        if r.signal.Success? && !program[pc].op.HALT? {
          GoingOnCosts(program[pc], ctx, m, |program|);
          ExhaustedKeepsNothing(program, ctx, r.m, NextPc(pc, r.signal.value), gas - cost.value);
        }
      }
    }
  }

  // A run starts at most one instruction more than it has gas for.
  lemma {:induction false} StepsBoundedByGas(program: Program, ctx: Context, m: Memory, pc: nat, gas: nat)
    ensures Steps(program, ctx, m, pc, gas) <= gas + 1
    decreases gas
  {
    hide Step;
    if pc < |program| {
      var cost := GasCost(program[pc].op);
      if cost.Some? && cost.value <= gas {
        var r := Step(program[pc], ctx, m, |program|);
        if r.signal.Success? && !program[pc].op.HALT? {
          GoingOnCosts(program[pc], ctx, m, |program|);
          StepsBoundedByGas(program, ctx, r.m, NextPc(pc, r.signal.value), gas - cost.value);
        }
      }
    }
  }

  // ---- Funds ------------------------------------------------------------------------------

  predicate IsWord(v: int) {
    0 <= v < WORD_MODULUS
  }

  ghost predicate WordsOnly(m: Memory) {
    && |m.stack| <= MAX_STACK_ITEMS
    && (forall i :: 0 <= i < |m.stack| ==> IsWord(m.stack[i]))
    && (forall k :: k in m.scratch ==> IsWord(m.scratch[k]))
    && (forall k :: k in m.storage ==> IsWord(m.storage[k]))
  }

  // What one transfer brings an account, and what a whole transfer log brought it.
  function Gain(t: Transfer, account: string): real {
    (if t.receiver == account then t.amount as real else 0.0) - (if t.source == account then t.amount as real else 0.0)
  }

  function Net(log: seq<Transfer>, account: string): real {
    if log == [] then 0.0 else Net(log[..|log| - 1], account) + Gain(log[|log| - 1], account)
  }

  ghost predicate Permitted(ctx: Context, t: Transfer) {
    t.amount > 0 && MaySpend(ctx, t.source, t.requestId)
  }

  // Balances are the initial ones plus the recorded changes, the changes are what the transfer
  // log says, they cancel out, and every logged transfer was permitted.
  ghost predicate FundsAccounted(ctx: Context, initial: map<string, real>, m: Memory) {
    && (forall a :: Bal(m.balances, a) == Bal(initial, a) + Bal(m.changes, a))
    && (forall a :: Bal(m.changes, a) == Net(m.transfers, a))
    && Sum(m.changes) == 0.0
    && NonNegative(m.balances)
    && (forall t :: t in m.transfers ==> Permitted(ctx, t))
  }

  ghost predicate SameFunds(m: Memory, m': Memory) {
    m'.balances == m.balances && m'.changes == m.changes && m'.transfers == m.transfers
  }

  // Words stay words, and funds stay where they are.
  ghost predicate Tame(m: Memory, m': Memory) {
    SameFunds(m, m') && (WordsOnly(m) ==> WordsOnly(m'))
  }

  lemma PushIsTame(m: Memory, v: int)
    ensures Tame(m, Pushed(m, v).m)
  {
  }

  lemma PopIsTame(m: Memory)
    requires m.stack != []
    ensures Tame(m, Popped(m)) && (WordsOnly(m) ==> IsWord(Top(m)))
  {
  }

  lemma BinaryIsTame(op: Opcode, m: Memory)
    requires IsBinary(op)
    ensures Tame(m, StepBinary(op, m).m)
  {
    hide WordsOnly, Normalize, Popped, Pushed;
    if m.stack != [] {
      PopIsTame(m);
      var m1 := Popped(m);
      if m1.stack != [] {
        PopIsTame(m1);
        var v := BinaryValue(op, Top(m1), Top(m));
        if v.Success? {
          PushIsTame(Popped(m1), v.value);
        }
      }
    }
  }

  lemma StackIsTame(op: Opcode, operands: seq<Operand>, ctx: Context, m: Memory)
    requires IsStack(op) && |operands| == OperandCount(op)
    ensures Tame(m, StepStack(op, operands, ctx, m).m)
  {
    hide Normalize, Pushed;
    forall m0, v ensures Tame(m0, Pushed(m0, v).m) { PushIsTame(m0, v); }
    if m.stack != [] {
      PopIsTame(m);
    }
  }

  lemma KeyedIsTame(op: Opcode, operand: Operand, ctx: Context, m: Memory)
    requires IsKeyed(op)
    ensures Tame(m, StepKeyed(op, operand, ctx, m).m)
  {
    hide Normalize, Pushed;
    forall v ensures Tame(m, Pushed(m, v).m) { PushIsTame(m, v); }
    if m.stack != [] {
      PopIsTame(m);
    }
  }

  lemma WalletIsTame(op: Opcode, operands: seq<Operand>, ctx: Context, m: Memory)
    requires IsWallet(op) && |operands| == 2
    ensures Tame(m, StepWallet(op, operands, ctx, m).m)
  {
    hide Normalize, Pushed, WordsOnly;
    forall v ensures Tame(m, Pushed(m, v).m) { PushIsTame(m, v); }
  }

  lemma ControlIsTame(op: Opcode, operands: seq<Operand>, m: Memory, n: nat)
    requires IsControl(op) && |operands| == OperandCount(op)
    ensures Tame(m, StepControl(op, operands, m, n).m)
  {
    hide WordsOnly, Popped;
    if m.stack != [] {
      PopIsTame(m);
    }
  }

  lemma NonTransferIsTame(ins: Instruction, ctx: Context, m: Memory, n: nat)
    requires !ins.op.TRANSFER_FROM?
    ensures Tame(m, Step(ins, ctx, m, n).m)
  {
    hide StepBinary, StepStack, StepKeyed, StepWallet, StepControl, StepTransfer, WordsOnly;
    var op, operands := ins.op, ins.operands;
    if op.Unknown? || |operands| != OperandCount(op) {
    } else if IsBinary(op) {
      BinaryIsTame(op, m);
    } else if IsStack(op) {
      StackIsTame(op, operands, ctx, m);
    } else if IsKeyed(op) {
      KeyedIsTame(op, operands[0], ctx, m);
    } else if IsWallet(op) {
      WalletIsTame(op, operands, ctx, m);
    } else {
      ControlIsTame(op, operands, m, n);
    }
  }

  // An instruction either leaves all funds alone or books one permitted transfer.
  lemma StepMovesFundsOnce(ins: Instruction, ctx: Context, m: Memory, n: nat)
    ensures var m' := Step(ins, ctx, m, n).m;
            || SameFunds(m, m')
            || (exists t :: Permitted(ctx, t) && Bal(m.balances, t.source) >= t.amount as real && m' == Booked(Popped'(m), t))
  {
    if !ins.op.TRANSFER_FROM? {
      NonTransferIsTame(ins, ctx, m, n);
    } else if |ins.operands| == 3 {
      var r := StepTransfer(ins.op, ins.operands, ctx, m);
      if r.signal.Success? {
        var t := Transfer(AccountOperand(ins.op, ins.operands[0], ctx).value,
                          AccountOperand(ins.op, ins.operands[1], ctx).value,
                          Top(m), KeyOperand(ins.op, ins.operands[2]).value);
        assert Permitted(ctx, t) && r.m == Booked(Popped'(m), t);
      }
    }
  }

  function Popped'(m: Memory): Memory {
    if m.stack == [] then m else Popped(m)
  }

  lemma TransferGains(m: map<string, real>, t: Transfer)
    ensures var m' := Shifted(Shifted(m, t.source, -(t.amount as real)), t.receiver, t.amount as real);
            Sum(m') == Sum(m) && forall a :: Bal(m', a) == Bal(m, a) + Gain(t, a)
  {
    var amount := t.amount as real;
    SumUpdate(m, t.source, Bal(m, t.source) - amount);
    var spent := Shifted(m, t.source, -amount);
    SumUpdate(spent, t.receiver, Bal(spent, t.receiver) + amount);
  }

  lemma BookingKeepsFunds(ctx: Context, initial: map<string, real>, m: Memory, t: Transfer)
    requires FundsAccounted(ctx, initial, m) && Permitted(ctx, t)
    requires Bal(m.balances, t.source) >= t.amount as real
    ensures FundsAccounted(ctx, initial, Booked(m, t))
  {
    hide Bal, Shifted;
    TransferGains(m.balances, t);
    TransferGains(m.changes, t);
    var log := m.transfers + [t];
    assert log[..|log| - 1] == m.transfers;
  }

  lemma StepKeepsWords(ins: Instruction, ctx: Context, m: Memory, n: nat)
    requires WordsOnly(m)
    ensures WordsOnly(Step(ins, ctx, m, n).m)
  {
    if !ins.op.TRANSFER_FROM? {
      NonTransferIsTame(ins, ctx, m, n);
    }
  }

  lemma StepKeepsFunds(ins: Instruction, ctx: Context, initial: map<string, real>, m: Memory, n: nat)
    requires FundsAccounted(ctx, initial, m)
    ensures FundsAccounted(ctx, initial, Step(ins, ctx, m, n).m)
  {
    StepMovesFundsOnce(ins, ctx, m, n);
    var m' := Step(ins, ctx, m, n).m;
    if !SameFunds(m, m') {
      var t :| Permitted(ctx, t) && Bal(m.balances, t.source) >= t.amount as real && m' == Booked(Popped'(m), t);
      BookingKeepsFunds(ctx, initial, Popped'(m), t);
    }
  }

  // The memory after at most n executed instructions.
  function After(program: Program, ctx: Context, m: Memory, pc: nat, gas: nat, n: nat): Memory
    decreases n
  {
    if n == 0 || pc >= |program| then m else
    var op := program[pc].op;
    var cost := GasCost(op);
    if cost.None? || gas < cost.value then m else
    var r := Step(program[pc], ctx, m, |program|);
    if r.signal.Failure? || op.HALT? then r.m else
    After(program, ctx, r.m, NextPc(pc, r.signal.value), gas - cost.value, n - 1)
  }

  lemma {:induction false} FinalMemory(program: Program, ctx: Context, m: Memory, pc: nat, gas: nat)
    ensures Run(program, ctx, m, pc, gas).m == After(program, ctx, m, pc, gas, Steps(program, ctx, m, pc, gas))
    decreases gas
  {
    hide Step;
    if pc < |program| {
      var cost := GasCost(program[pc].op);
      if cost.Some? && cost.value <= gas {
        var r := Step(program[pc], ctx, m, |program|);
        if r.signal.Success? && !program[pc].op.HALT? {
          GoingOnCosts(program[pc], ctx, m, |program|);
          FinalMemory(program, ctx, r.m, NextPc(pc, r.signal.value), gas - cost.value);
        }
      }
    }
  }

  // At every step of every run.
  lemma {:induction false} SafeThroughout(program: Program, ctx: Context, initial: map<string, real>, m: Memory, pc: nat, gas: nat, n: nat)
    requires WordsOnly(m) && FundsAccounted(ctx, initial, m)
    ensures var m' := After(program, ctx, m, pc, gas, n); WordsOnly(m') && FundsAccounted(ctx, initial, m')
    decreases n
  {
    hide Step, WordsOnly, FundsAccounted;
    if n > 0 && pc < |program| {
      var cost := GasCost(program[pc].op);
      if cost.Some? && cost.value <= gas {
        StepKeepsWords(program[pc], ctx, m, |program|);
        StepKeepsFunds(program[pc], ctx, initial, m, |program|);
        var r := Step(program[pc], ctx, m, |program|);
        if r.signal.Success? && !program[pc].op.HALT? {
          SafeThroughout(program, ctx, initial, r.m, NextPc(pc, r.signal.value), gas - cost.value, n - 1);
        }
      }
    }
  }

  lemma {:induction false} NonZeroKeepsSum(m: map<string, real>)
    ensures Sum(NonZero(m)) == Sum(m)
    decreases |m|
  {
    if m != map[] {
      var k :| k in m;
      var rest := m - {k};
      NonZeroKeepsSum(rest);
      SumRemove(m, k);
      if m[k] != 0.0 {
        SumRemove(NonZero(m), k);
        assert NonZero(m) - {k} == NonZero(rest);
      } else {
        assert NonZero(m) == NonZero(rest);
      }
    } else {
      assert NonZero(m) == map[];
    }
  }

  // What a caller may rely on in the reported result of any execution.
  lemma ExecutionIsSafe(source: Option<Program>, ctx: Context, gasLimit: int, storage: map<string, int>, balances: map<string, real>)
    requires NonNegative(balances)
    ensures var e := Execute(source, ctx, gasLimit, storage, balances);
            && Sum(e.balanceChanges) == 0.0
            && (forall a :: Bal(balances, a) + Bal(e.balanceChanges, a) >= 0.0)
            && (forall a :: Bal(e.balanceChanges, a) == Net(e.transfers, a))
            && (forall t :: t in e.transfers ==> Permitted(ctx, t))
            && e.gasUsed <= (if gasLimit < 0 then 0 else gasLimit)
            && |e.stack| <= MAX_STACK_ITEMS && (forall i :: 0 <= i < |e.stack| ==> IsWord(e.stack[i]))
  {
    hide Run, Steps, After, Step, Permitted;
    if source.Some? && gasLimit >= 0 {
      var m := InitialMemory(storage, balances);
      var f := Run(source.value, ctx, m, 0, gasLimit);
      FinalMemory(source.value, ctx, m, 0, gasLimit);
      SafeThroughout(source.value, ctx, balances, m, 0, gasLimit, Steps(source.value, ctx, m, 0, gasLimit));
      NonZeroKeepsSum(f.m.changes);
      forall a
        ensures Bal(NonZero(f.m.changes), a) == Bal(f.m.changes, a)
      {
      }
      GasNeverGrows(source.value, ctx, m, 0, gasLimit);
    }
  }

  // ---- Programs without transfers ---------------------------------------------------------

  ghost predicate MovesNoFunds(program: Program) {
    forall pc :: 0 <= pc < |program| ==> !program[pc].op.TRANSFER_FROM?
  }

  lemma {:induction false} FundsStayInPlace(program: Program, ctx: Context, m: Memory, pc: nat, gas: nat)
    requires MovesNoFunds(program)
    ensures SameFunds(m, Run(program, ctx, m, pc, gas).m)
    decreases gas
  {
    hide Step;
    if pc < |program| {
      var op := program[pc].op;
      var cost := GasCost(op);
      if cost.Some? && gas >= cost.value {
        NonTransferIsTame(program[pc], ctx, m, |program|);
        var r := Step(program[pc], ctx, m, |program|);
        if r.signal.Success? && !op.HALT? {
          GoingOnCosts(program[pc], ctx, m, |program|);
          FundsStayInPlace(program, ctx, r.m, NextPc(pc, r.signal.value), gas - cost.value);
        }
      }
    }
  }

  // A program without a transfer reports none, and no changes, however its run ends.
  lemma NoTransfersReported(program: Program, ctx: Context, gasLimit: int, storage: map<string, int>, balances: map<string, real>)
    requires MovesNoFunds(program)
    ensures var e := Execute(Some(program), ctx, gasLimit, storage, balances); e.balanceChanges == map[] && e.transfers == []
  {
    hide Run;
    if gasLimit >= 0 {
      FundsStayInPlace(program, ctx, InitialMemory(storage, balances), 0, gasLimit);
    }
    assert NonZero(map[]) == map[];
  }
}

/** The virtual machine in the form that runs: one object whose stack, memory, storage, balances
    and transfer log are updated in place, and the fetch-charge-execute loop around it.
    Every method is proved to do exactly what the value semantics in Uvm says. */
module UvmMachine {
  import opened Base
  import opened Uvm

  class Machine {
    const ctx: Context
    var stack: seq<int>
    var scratch: map<string, int>
    var storage: map<string, int>
    var balances: map<string, real>
    var changes: map<string, real>
    var transfers: seq<Transfer>

    ghost function View(): Memory
      reads this
    {
      Memory(stack, scratch, storage, balances, changes, transfers)
    }

    constructor (ctx: Context, storage: map<string, int>, balances: map<string, real>)
      ensures this.ctx == ctx && View() == InitialMemory(storage, balances)
    {
      this.ctx := ctx;
      this.stack, this.scratch := [], map[];
      this.storage := map k | k in storage :: Normalize(storage[k]);
      this.balances, this.changes, this.transfers := balances, map[], [];
    }

    method Push(value: int) returns (r: Signal)
      modifies `stack
      ensures StepResult(View(), r) == Pushed(old(View()), value)
    {
      if |stack| >= MAX_STACK_ITEMS {
        return Failure(Error(StackLimitExceeded));
      }
      stack := stack + [Normalize(value)];
      return CONTINUE;
    }

    method Pop() returns (r: Result<int, Trap>)
      modifies `stack
      ensures old(stack) == [] ==> r == Failure(Error(StackUnderflow)) && stack == []
      ensures old(stack) != [] ==> r == Success(Top(old(View()))) && View() == Popped(old(View()))
    {
      if stack == [] {
        return Failure(Error(StackUnderflow));
      }
      var value := stack[|stack| - 1];
      stack := stack[..|stack| - 1];
      return Success(value);
    }

    method Swap()
      requires |stack| >= 2
      modifies `stack
      ensures View() == Swapped(old(View()))
    {
      var n := |stack|;
      stack := stack[n - 1 := stack[n - 2]][n - 2 := stack[n - 1]];
      assert stack == Swapped(old(View())).stack;
    }

    method PushResult(value: Result<int, Trap>) returns (r: Signal)
      modifies `stack
      ensures StepResult(View(), r) == PushedOr(old(View()), value)
    {
      var word :- value;
      r := Push(word);
    }

    method ExecuteBinary(op: Opcode) returns (r: Signal)
      requires IsBinary(op)
      modifies `stack
      ensures StepResult(View(), r) == StepBinary(op, old(View()))
    {
      var right :- Pop();
      var left :- Pop();
      r := PushResult(BinaryValue(op, left, right));
    }

    method Move(t: Transfer) returns (r: Signal)
      modifies this
      ensures StepResult(View(), r) == Moved(old(View()), ctx, t)
    {
      var Transfer(source, receiver, amount, request) := t;
      if amount <= 0 {
        return Failure(Error(NonPositiveTransfer));
      }
      if source != ctx.txSender && source != ctx.contractAddress {
        if !IsRequestAuthorized(ctx.authorizations, source, request) {
          return Failure(Error(NotAuthorized(source, request)));
        }
      }
      var sourceBalance := Bal(balances, source);
      if sourceBalance < amount as real {
        return Failure(Error(SourceBalanceTooLow(source)));
      }
      Book(t);
      return CONTINUE;
    }

    method Book(t: Transfer)
      modifies this
      ensures View() == Booked(old(View()), t)
    {
      var amount := t.amount as real;
      balances := balances[t.source := Bal(balances, t.source) - amount];
      assert balances == Shifted(old(balances), t.source, -amount);
      balances := balances[t.receiver := Bal(balances, t.receiver) + amount];
      changes := changes[t.source := Bal(changes, t.source) - amount];
      assert changes == Shifted(old(changes), t.source, -amount);
      changes := changes[t.receiver := Bal(changes, t.receiver) + amount];
      transfers := transfers + [t];
    }

    method ExecuteTransfer(operands: seq<Operand>) returns (r: Signal)
      requires |operands| == 3
      modifies this
      ensures StepResult(View(), r) == StepTransfer(TRANSFER_FROM, operands, ctx, old(View()))
    {
      var source :- AccountOperand(TRANSFER_FROM, operands[0], ctx);
      var receiver :- AccountOperand(TRANSFER_FROM, operands[1], ctx);
      var request :- KeyOperand(TRANSFER_FROM, operands[2]);
      var amount :- Pop();
      r := Move(Transfer(source, receiver, amount, request));
    }

    method ExecuteWallet(op: Opcode, operands: seq<Operand>) returns (r: Signal)
      requires IsWallet(op) && |operands| == 2
      modifies `stack
      ensures StepResult(View(), r) == StepWallet(op, operands, ctx, old(View()))
    {
      var wallet :- KeyOperand(op, operands[0]);
      var request :- KeyOperand(op, operands[1]);
      var authorized := IsRequestAuthorized(ctx.authorizations, wallet, request);
      match op {
        case READ_COMMIT =>
          if !authorized {
            return Failure(Error(NotAuthorized(wallet, request)));
          }
          if wallet !in Get(ctx.commitments, request, map[]) {
            return Failure(Error(MissingCommitment(wallet, request)));
          }
          r := Push(ctx.commitments[request][wallet]);
        case READ_REVEAL =>
          if wallet !in Get(ctx.revealed, request, map[]) {
            return Failure(Error(MissingReveal(wallet, request)));
          }
          r := Push(ctx.revealed[request][wallet].seed);
        case HAS_REVEAL =>
          r := Push(Flag(wallet in Get(ctx.revealed, request, map[])));
        case HAS_AUTH =>
          r := Push(Flag(authorized));
        case REQUIRE_AUTH =>
          if !authorized {
            return Failure(Error(NotAuthorized(wallet, request)));
          }
          return CONTINUE;
      }
    }

    method ExecuteStack(op: Opcode, operands: seq<Operand>) returns (r: Signal)
      requires IsStack(op) && |operands| == OperandCount(op)
      modifies `stack
      ensures StepResult(View(), r) == StepStack(op, operands, ctx, old(View()))
    {
      match op {
        case PUSH =>
          r := PushResult(IntOperand(op, operands[0]));
        case POP =>
          var _ :- Pop();
          return CONTINUE;
        case DUP =>
          if stack == [] {
            return Failure(Error(StackUnderflow));
          }
          r := Push(stack[|stack| - 1]);
        case SWAP =>
          if |stack| < 2 {
            return Failure(Error(StackUnderflow));
          }
          Swap();
          return CONTINUE;
        case NOT =>
          var value :- Pop();
          r := Push(Flag(value == 0));
        case SHA256 =>
          var value :- Pop();
          r := Push(ctx.sha256(value));
        case BLOCK_HEIGHT =>
          r := Push(ctx.blockHeight);
        case TX_SENDER =>
          if ctx.senderWord.None? {
            return Failure(Error(NotAnInteger));
          }
          r := Push(ctx.senderWord.value);
      }
    }

    method ExecuteKeyed(op: Opcode, operand: Operand) returns (r: Signal)
      requires IsKeyed(op)
      modifies this
      ensures StepResult(View(), r) == StepKeyed(op, operand, ctx, old(View()))
    {
      match op {
        case MEM_LOAD =>
          var key :- KeyOperand(op, operand);
          r := Push(Get(scratch, key, 0));
        case MEM_STORE =>
          var value :- Pop();
          var key :- KeyOperand(op, operand);
          scratch := scratch[key := value];
          return CONTINUE;
        case LOAD =>
          var key :- KeyOperand(op, operand);
          r := Push(Get(storage, key, 0));
        case STORE =>
          var value :- Pop();
          var key :- KeyOperand(op, operand);
          storage := storage[key := value];
          return CONTINUE;
        case READ_METADATA =>
          var key :- KeyOperand(op, operand);
          r := PushResult(ReadWord(ctx.metadata, key));
        case READ_INPUT =>
          var key :- KeyOperand(op, operand);
          r := PushResult(ReadWord(ctx.input, key));
      }
    }

    method ExecuteControl(op: Opcode, operands: seq<Operand>, programLength: nat) returns (r: Signal)
      requires IsControl(op) && |operands| == OperandCount(op)
      modifies `stack
      ensures StepResult(View(), r) == StepControl(op, operands, old(View()), programLength)
    {
      match op {
        case JUMP =>
          var target :- JumpTarget(op, operands[0], programLength);
          return Success(Some(target));
        case JUMPI =>
          var target :- JumpTarget(op, operands[0], programLength);
          var condition :- Pop();
          return Success(if condition != 0 then Some(target) else None);
        case HALT =>
          return CONTINUE;
        case REVERT =>
          return Failure(Revert);
      }
    }

    method ExecuteInstruction(ins: Instruction, programLength: nat) returns (r: Signal)
      modifies this
      ensures StepResult(View(), r) == Step(ins, ctx, old(View()), programLength)
    {
      var op, operands := ins.op, ins.operands;
      if op.Unknown? {
        return Failure(Error(UnknownOpcode(op)));
      }
      if |operands| != OperandCount(op) {
        return Failure(Error(OperandCountMismatch(op)));
      }
      if IsBinary(op) {
        r := ExecuteBinary(op);
      } else if IsStack(op) {
        r := ExecuteStack(op, operands);
      } else if IsKeyed(op) {
        r := ExecuteKeyed(op, operands[0]);
      } else if IsWallet(op) {
        r := ExecuteWallet(op, operands);
      } else if IsControl(op) {
        r := ExecuteControl(op, operands, programLength);
      } else {
        r := ExecuteTransfer(operands);
      }
    }
  }

  method ExecuteProgram(source: Option<Program>, ctx: Context, gasLimit: int,
                        storage: map<string, int>, balances: map<string, real>) returns (result: Execution)
    ensures result == Execute(source, ctx, gasLimit, storage, balances)
  {
    if source.None? {
      return NotStarted(if gasLimit < 0 then 0 else gasLimit, InvalidProgram, storage);
    }
    if gasLimit < 0 {
      return NotStarted(0, NegativeGasLimit, storage);
    }
    var program := source.value;
    var machine := new Machine(ctx, storage, balances);
    var pc: nat, gas: nat := 0, gasLimit;
    ghost var goal := Run(program, ctx, machine.View(), pc, gas);
    while pc < |program|
      invariant machine.ctx == ctx && fresh(machine)
      invariant Run(program, ctx, machine.View(), pc, gas) == goal
      invariant gas <= gasLimit
      decreases gas
    {
      var op := program[pc].op;
      var cost := GasCost(op);
      if cost.None? {
        return Finish(machine, gasLimit, BadOpcode(op), pc, gas);
      }
      if gas < cost.value {
        return Finish(machine, gasLimit, Exhausted(op), pc, 0);
      }
      gas := gas - cost.value;
      var signal := machine.ExecuteInstruction(program[pc], |program|);
      if signal.Failure? {
        return Finish(machine, gasLimit, Trapping(signal.error), pc, gas);
      }
      if op.HALT? {
        return Finish(machine, gasLimit, Completed, pc, gas);
      }
      pc := NextPc(pc, signal.value);
    }
    return Finish(machine, gasLimit, Completed, pc, gas);
  }

  function Finish(machine: Machine, gasLimit: nat, ending: Ending, pc: nat, gas: nat): Execution
    requires gas <= gasLimit
    reads machine
  {
    Report(gasLimit, Final(ending, Memory(machine.stack, machine.scratch, machine.storage,
                                          machine.balances, machine.changes, machine.transfers), pc, gas))
  }
}

/** The contract virtual machine: instruction set, gas table, one-step semantics, whole runs,
    and the imperative machine that executes them. */
module Uvm {
  import opened Base

  const WORD_MODULUS: int := 0x1_0000_0000_0000_0000_0000_0000_0000_0000_0000_0000_0000_0000_0000_0000_0000_0000
  const MAX_STACK_ITEMS: nat := 1024
  const CONTRACT_SELF: string := "$CONTRACT"

  datatype Opcode =
    | PUSH | POP | DUP | SWAP
    | ADD | SUB | MUL | DIV | MOD | EQ | LT | GT | AND | OR | XOR | NOT
    | SHA256 | MEM_LOAD | MEM_STORE | READ_METADATA | READ_INPUT | LOAD | STORE
    | READ_COMMIT | READ_REVEAL | HAS_REVEAL
    | TRANSFER_FROM | HAS_AUTH | REQUIRE_AUTH | BLOCK_HEIGHT | TX_SENDER
    | JUMP | JUMPI | HALT | REVERT
    | Unknown(name: string)

  // Operands after parsing: numeric text has become a number already.
  datatype Operand = Word(n: int) | Key(s: string) | Other

  datatype Instruction = Instruction(op: Opcode, operands: seq<Operand>)

  type Program = seq<Instruction>

  datatype Reveal = Reveal(seed: int, salt: string, commitment: nat)

  datatype Scope = Scope(validFrom: Option<nat>, validUntil: Option<nat>)

  // A metadata or input value is None when it does not read as an integer.
  type WordMap = map<string, Option<int>>

  type AuthorizationIndex = map<string, map<string, Scope>>

  datatype Context = Context(
    txSender: string,
    senderWord: Option<int>,
    contractAddress: string,
    commitments: map<string, map<string, nat>>,
    revealed: map<string, map<string, Reveal>>,
    authorizations: AuthorizationIndex,
    metadata: WordMap,
    input: WordMap,
    blockHeight: int,
    sha256: int -> int
  )

  datatype Transfer = Transfer(source: string, receiver: string, amount: int, requestId: string)

  datatype Memory = Memory(
    stack: seq<int>,
    scratch: map<string, int>,
    storage: map<string, int>,
    balances: map<string, real>,
    changes: map<string, real>,
    transfers: seq<Transfer>
  )

  datatype UvmError =
    | InvalidProgram | NegativeGasLimit | UnknownOpcode(op: Opcode) | OutOfGas(op: Opcode)
    | OperandCountMismatch(op: Opcode) | IntegerOperandRequired(op: Opcode) | KeyOperandRequired(op: Opcode)
    | StackUnderflow | StackLimitExceeded | DivisionByZero | ModuloByZero
    | MissingKey(key: string) | NotAnInteger
    | NotAuthorized(wallet: string, requestId: string)
    | MissingCommitment(wallet: string, requestId: string) | MissingReveal(wallet: string, requestId: string)
    | NonPositiveTransfer | SourceBalanceTooLow(source: string) | JumpOutOfBounds(target: int)
    | ExecutionReverted

  // What an instruction raises: a failure, or the deliberate revert.
  datatype Trap = Error(error: UvmError) | Revert

  // An instruction that does not trap yields the program counter it jumped to, if any.
  type Signal = Result<Option<nat>, Trap>

  function GasCost(op: Opcode): Option<nat> {
    match op
    case PUSH | POP => Some(1)
    case DUP | SWAP | EQ | LT | GT | NOT | BLOCK_HEIGHT | TX_SENDER => Some(2)
    case ADD | SUB | AND | OR | XOR | MEM_LOAD | JUMP => Some(3)
    case MUL | DIV | MOD | MEM_STORE | JUMPI => Some(5)
    case READ_METADATA | READ_INPUT | HAS_REVEAL => Some(10)
    case SHA256 | HAS_AUTH | REQUIRE_AUTH => Some(20)
    case LOAD => Some(25)
    case READ_COMMIT | READ_REVEAL => Some(30)
    case TRANSFER_FROM => Some(50)
    case STORE => Some(100)
    case HALT | REVERT => Some(0)
    case Unknown(_) => None
  }

  function OperandCount(op: Opcode): nat {
    match op
    case PUSH | MEM_LOAD | MEM_STORE | READ_METADATA | READ_INPUT | LOAD | STORE | JUMP | JUMPI => 1
    case READ_COMMIT | READ_REVEAL | HAS_REVEAL | HAS_AUTH | REQUIRE_AUTH => 2
    case TRANSFER_FROM => 3
    case _ => 0
  }

  function Normalize(value: int): int {
    value % WORD_MODULUS
  }

  function Flag(b: bool): int {
    if b then 1 else 0
  }

  // Exclusive or of two non-negative integers, bit by bit.
  function Xor(a: nat, b: nat): nat {
    if a == 0 && b == 0 then 0 else 2 * Xor(a / 2, b / 2) + (a % 2 + b % 2) % 2
  }

  predicate IsRequestAuthorized(index: AuthorizationIndex, wallet: string, requestId: string) {
    wallet in index && requestId in index[wallet]
  }

  predicate IsBinary(op: Opcode) {
    op.ADD? || op.SUB? || op.MUL? || op.DIV? || op.MOD? || op.EQ? || op.LT? || op.GT? || op.AND? || op.OR? || op.XOR?
  }

  function BinaryValue(op: Opcode, left: int, right: int): Result<int, Trap>
    requires IsBinary(op)
  {
    match op
    case ADD => Success(left + right)
    case SUB => Success(left - right)
    case MUL => Success(left * right)
    case DIV => if right == 0 then Failure(Error(DivisionByZero)) else Success(left / right)
    case MOD => if right == 0 then Failure(Error(ModuloByZero)) else Success(left % right)
    case EQ => Success(Flag(left == right))
    case LT => Success(Flag(left < right))
    case GT => Success(Flag(left > right))
    case AND => Success(Flag(left != 0 && right != 0))
    case OR => Success(Flag(left != 0 || right != 0))
    // Stack words are never negative.
    case XOR => Success(if left < 0 || right < 0 then 0 else Xor(left, right))
  }

  function ReadWord(values: WordMap, key: string): Result<int, Trap> {
    if key !in values then Failure(Error(MissingKey(key)))
    else if values[key].None? then Failure(Error(NotAnInteger))
    else Success(values[key].value)
  }

  function IntOperand(op: Opcode, operand: Operand): Result<int, Trap> {
    if operand.Word? then Success(operand.n) else Failure(Error(IntegerOperandRequired(op)))
  }

  function KeyOperand(op: Opcode, operand: Operand): Result<string, Trap> {
    if operand.Key? && operand.s != "" then Success(operand.s) else Failure(Error(KeyOperandRequired(op)))
  }

  function AccountOperand(op: Opcode, operand: Operand, ctx: Context): Result<string, Trap> {
    var account :- KeyOperand(op, operand);
    Success(if account == CONTRACT_SELF then ctx.contractAddress else account)
  }

  function JumpTarget(op: Opcode, operand: Operand, programLength: nat): Result<nat, Trap> {
    var target :- IntOperand(op, operand);
    if 0 <= target < programLength then Success(target) else Failure(Error(JumpOutOfBounds(target)))
  }

  // ---- One-step semantics on values -------------------------------------------------------

  datatype StepResult = StepResult(m: Memory, signal: Signal)

  const CONTINUE: Signal := Success(None)

  function Raise(m: Memory, e: UvmError): StepResult {
    StepResult(m, Failure(Error(e)))
  }

  function Trapped(m: Memory, t: Trap): StepResult {
    StepResult(m, Failure(t))
  }

  function Pushed(m: Memory, value: int): StepResult {
    if |m.stack| >= MAX_STACK_ITEMS then Raise(m, StackLimitExceeded)
    else StepResult(m.(stack := m.stack + [Normalize(value)]), CONTINUE)
  }

  function PushedOr(m: Memory, value: Result<int, Trap>): StepResult {
    if value.Success? then Pushed(m, value.value) else Trapped(m, value.error)
  }

  function Top(m: Memory): int
    requires m.stack != []
  {
    m.stack[|m.stack| - 1]
  }

  function Popped(m: Memory): Memory
    requires m.stack != []
  {
    m.(stack := m.stack[..|m.stack| - 1])
  }

  function Swapped(m: Memory): Memory
    requires |m.stack| >= 2
  {
    m.(stack := Popped(Popped(m)).stack + [Top(m), Top(Popped(m))])
  }

  function StepBinary(op: Opcode, m: Memory): StepResult
    requires IsBinary(op)
  {
    if m.stack == [] then Raise(m, StackUnderflow) else
    var m1 := Popped(m);
    if m1.stack == [] then Raise(m1, StackUnderflow) else
    PushedOr(Popped(m1), BinaryValue(op, Top(m1), Top(m)))
  }

  function StepTransfer(op: Opcode, operands: seq<Operand>, ctx: Context, m: Memory): StepResult
    requires |operands| == 3
  {
    var source := AccountOperand(op, operands[0], ctx);
    if source.Failure? then Trapped(m, source.error) else
    var receiver := AccountOperand(op, operands[1], ctx);
    if receiver.Failure? then Trapped(m, receiver.error) else
    var request := KeyOperand(op, operands[2]);
    if request.Failure? then Trapped(m, request.error) else
    if m.stack == [] then Raise(m, StackUnderflow) else
    Moved(Popped(m), ctx, Transfer(source.value, receiver.value, Top(m), request.value))
  }

  predicate MaySpend(ctx: Context, source: string, requestId: string) {
    source == ctx.txSender || source == ctx.contractAddress || IsRequestAuthorized(ctx.authorizations, source, requestId)
  }

  function Moved(m: Memory, ctx: Context, t: Transfer): StepResult {
    if t.amount <= 0 then Raise(m, NonPositiveTransfer)
    else if !MaySpend(ctx, t.source, t.requestId) then Raise(m, NotAuthorized(t.source, t.requestId))
    else if Bal(m.balances, t.source) < t.amount as real then Raise(m, SourceBalanceTooLow(t.source))
    else StepResult(Booked(m, t), CONTINUE)
  }

  function Booked(m: Memory, t: Transfer): Memory {
    m.(balances := Shifted(Shifted(m.balances, t.source, -(t.amount as real)), t.receiver, t.amount as real),
       changes := Shifted(Shifted(m.changes, t.source, -(t.amount as real)), t.receiver, t.amount as real),
       transfers := m.transfers + [t])
  }

  function Shifted(m: map<string, real>, account: string, delta: real): map<string, real> {
    m[account := Bal(m, account) + delta]
  }

  function StepWallet(op: Opcode, operands: seq<Operand>, ctx: Context, m: Memory): StepResult
    requires IsWallet(op) && |operands| == 2
  {
    var walletKey := KeyOperand(op, operands[0]);
    if walletKey.Failure? then Trapped(m, walletKey.error) else
    var requestKey := KeyOperand(op, operands[1]);
    if requestKey.Failure? then Trapped(m, requestKey.error) else
    var wallet, request := walletKey.value, requestKey.value;
    var authorized := IsRequestAuthorized(ctx.authorizations, wallet, request);
    match op
    case READ_COMMIT =>
      if !authorized then Raise(m, NotAuthorized(wallet, request))
      else if wallet !in Get(ctx.commitments, request, map[]) then Raise(m, MissingCommitment(wallet, request))
      else Pushed(m, ctx.commitments[request][wallet])
    case READ_REVEAL =>
      if wallet !in Get(ctx.revealed, request, map[]) then Raise(m, MissingReveal(wallet, request))
      else Pushed(m, ctx.revealed[request][wallet].seed)
    case HAS_REVEAL => Pushed(m, Flag(wallet in Get(ctx.revealed, request, map[])))
    case HAS_AUTH => Pushed(m, Flag(authorized))
    case REQUIRE_AUTH => if authorized then StepResult(m, CONTINUE) else Raise(m, NotAuthorized(wallet, request))
  }

  // Opcodes that work on the stack and on values of the context.
  predicate IsStack(op: Opcode) {
    op.PUSH? || op.POP? || op.DUP? || op.SWAP? || op.NOT? || op.SHA256? || op.BLOCK_HEIGHT? || op.TX_SENDER?
  }

  function StepStack(op: Opcode, operands: seq<Operand>, ctx: Context, m: Memory): StepResult
    requires IsStack(op) && |operands| == OperandCount(op)
  {
    match op
    case PUSH => PushedOr(m, IntOperand(op, operands[0]))
    case POP => if m.stack == [] then Raise(m, StackUnderflow) else StepResult(Popped(m), CONTINUE)
    case DUP => if m.stack == [] then Raise(m, StackUnderflow) else Pushed(m, Top(m))
    case SWAP => if |m.stack| < 2 then Raise(m, StackUnderflow) else StepResult(Swapped(m), CONTINUE)
    case NOT => if m.stack == [] then Raise(m, StackUnderflow) else Pushed(Popped(m), Flag(Top(m) == 0))
    case SHA256 => if m.stack == [] then Raise(m, StackUnderflow) else Pushed(Popped(m), ctx.sha256(Top(m)))
    case BLOCK_HEIGHT => Pushed(m, ctx.blockHeight)
    case TX_SENDER =>
      if ctx.senderWord.None? then Raise(m, NotAnInteger) else Pushed(m, ctx.senderWord.value)
  }

  // Opcodes that read or write a named cell.
  predicate IsKeyed(op: Opcode) {
    op.MEM_LOAD? || op.MEM_STORE? || op.LOAD? || op.STORE? || op.READ_METADATA? || op.READ_INPUT?
  }

  function StepKeyed(op: Opcode, operand: Operand, ctx: Context, m: Memory): StepResult
    requires IsKeyed(op)
  {
    // A stored value is popped before the key operand is looked at.
    if (op.MEM_STORE? || op.STORE?) && m.stack == [] then Raise(m, StackUnderflow) else
    var m1 := if op.MEM_STORE? || op.STORE? then Popped(m) else m;
    var key := KeyOperand(op, operand);
    if key.Failure? then Trapped(m1, key.error) else
    match op
    case MEM_LOAD => Pushed(m, Get(m.scratch, key.value, 0))
    case LOAD => Pushed(m, Get(m.storage, key.value, 0))
    case MEM_STORE => StepResult(m1.(scratch := m.scratch[key.value := Top(m)]), CONTINUE)
    case STORE => StepResult(m1.(storage := m.storage[key.value := Top(m)]), CONTINUE)
    case READ_METADATA => PushedOr(m, ReadWord(ctx.metadata, key.value))
    case READ_INPUT => PushedOr(m, ReadWord(ctx.input, key.value))
  }

  predicate IsControl(op: Opcode) {
    op.JUMP? || op.JUMPI? || op.HALT? || op.REVERT?
  }

  function StepControl(op: Opcode, operands: seq<Operand>, m: Memory, programLength: nat): StepResult
    requires IsControl(op) && |operands| == OperandCount(op)
  {
    match op
    case JUMP =>
      var target := JumpTarget(op, operands[0], programLength);
      if target.Failure? then Trapped(m, target.error) else StepResult(m, Success(Some(target.value)))
    case JUMPI =>
      var target := JumpTarget(op, operands[0], programLength);
      if target.Failure? then Trapped(m, target.error) else
      if m.stack == [] then Raise(m, StackUnderflow) else
      StepResult(Popped(m), Success(if Top(m) != 0 then Some(target.value) else None))
    case HALT => StepResult(m, CONTINUE)
    case REVERT => Trapped(m, Revert)
  }

  predicate IsWallet(op: Opcode) {
    op.READ_COMMIT? || op.READ_REVEAL? || op.HAS_REVEAL? || op.HAS_AUTH? || op.REQUIRE_AUTH?
  }

  function Step(ins: Instruction, ctx: Context, m: Memory, programLength: nat): StepResult {
    var op, operands := ins.op, ins.operands;
    if op.Unknown? then Raise(m, UnknownOpcode(op)) else
    if |operands| != OperandCount(op) then Raise(m, OperandCountMismatch(op)) else
    if IsBinary(op) then StepBinary(op, m) else
    if IsStack(op) then StepStack(op, operands, ctx, m) else
    if IsKeyed(op) then StepKeyed(op, operands[0], ctx, m) else
    if IsWallet(op) then StepWallet(op, operands, ctx, m) else
    if IsControl(op) then StepControl(op, operands, m, programLength) else
    StepTransfer(op, operands, ctx, m)
  }

  // ---- Whole runs -------------------------------------------------------------------------

  datatype Ending = Completed | Trapping(trap: Trap) | Exhausted(op: Opcode) | BadOpcode(op: Opcode)

  datatype Final = Final(ending: Ending, m: Memory, pc: nat, gas: nat)

  function NextPc(pc: nat, jumped: Option<nat>): nat {
    if jumped.Some? then jumped.value else pc + 1
  }

  function Run(program: Program, ctx: Context, m: Memory, pc: nat, gas: nat): Final
    decreases gas
  {
    if pc >= |program| then Final(Completed, m, pc, gas) else
    var op := program[pc].op;
    var cost := GasCost(op);
    if cost.None? then Final(BadOpcode(op), m, pc, gas) else
    if gas < cost.value then Final(Exhausted(op), m, pc, 0) else
    var r := Step(program[pc], ctx, m, |program|);
    var left := gas - cost.value;
    if r.signal.Failure? then Final(Trapping(r.signal.error), r.m, pc, left) else
    if op.HALT? then Final(Completed, r.m, pc, left) else
    Run(program, ctx, r.m, NextPc(pc, r.signal.value), left)
  }

  // The number of instructions a run starts to execute.
  function Steps(program: Program, ctx: Context, m: Memory, pc: nat, gas: nat): nat
    decreases gas
  {
    if pc >= |program| then 0 else
    var op := program[pc].op;
    var cost := GasCost(op);
    if cost.None? || gas < cost.value then 0 else
    var r := Step(program[pc], ctx, m, |program|);
    if r.signal.Failure? || op.HALT? then 1 else
    1 + Steps(program, ctx, r.m, NextPc(pc, r.signal.value), gas - cost.value)
  }

  datatype Execution = Execution(
    success: bool,
    reverted: bool,
    gasUsed: nat,
    gasRemaining: nat,
    gasExhausted: bool,
    usedAllGas: bool,
    error: Option<UvmError>,
    stack: seq<int>,
    scratch: map<string, int>,
    storage: map<string, int>,
    balanceChanges: map<string, real>,
    transfers: seq<Transfer>,
    pc: nat
  )

  function NonZero(changes: map<string, real>): map<string, real> {
    map a | a in changes && changes[a] != 0.0 :: changes[a]
  }

  function InitialMemory(storage: map<string, int>, balances: map<string, real>): Memory {
    Memory([], map[], map k | k in storage :: Normalize(storage[k]), balances, map[], [])
  }

  // The two failures raised by the loop itself report no balance changes and no transfers.
  function Report(gasLimit: nat, f: Final): Execution
    requires f.gas <= gasLimit
  {
    var m := f.m;
    var silent := f.ending.Exhausted? || f.ending.BadOpcode?;
    Execution(
      f.ending.Completed?,
      f.ending.Trapping? && f.ending.trap.Revert?,
      gasLimit - f.gas,
      f.gas,
      f.ending.Exhausted?,
      f.gas == 0,
      match f.ending {
        case Completed => None
        case Trapping(Error(e)) => Some(e)
        case Trapping(Revert) => Some(ExecutionReverted)
        case Exhausted(op) => Some(OutOfGas(op))
        case BadOpcode(op) => Some(UnknownOpcode(op))
      },
      m.stack, m.scratch, m.storage,
      if silent then map[] else NonZero(m.changes),
      if silent then [] else m.transfers,
      f.pc)
  }

  function NotStarted(gas: nat, error: UvmError, storage: map<string, int>): Execution {
    Execution(false, false, 0, gas, false, gas == 0, Some(error), [], map[], storage, map[], [], 0)
  }

  // Only HALT and REVERT are free, and a run does not go on after either.
  lemma GoingOnCosts(ins: Instruction, ctx: Context, m: Memory, n: nat)
    requires !ins.op.HALT? && Step(ins, ctx, m, n).signal.Success?
    ensures GasCost(ins.op).Some? && GasCost(ins.op).value >= 1
  {
  }

  lemma {:induction false} GasNeverGrows(program: Program, ctx: Context, m: Memory, pc: nat, gas: nat)
    ensures Run(program, ctx, m, pc, gas).gas <= gas
    decreases gas
  {
    hide Step;
    if pc < |program| {
      var cost := GasCost(program[pc].op);
      if cost.Some? && cost.value <= gas {
        var r := Step(program[pc], ctx, m, |program|);
        if r.signal.Success? && !program[pc].op.HALT? {
          GoingOnCosts(program[pc], ctx, m, |program|);
          GasNeverGrows(program, ctx, r.m, NextPc(pc, r.signal.value), gas - cost.value);
        }
      }
    }
  }

  // A source that does not parse is None.
  function Execute(source: Option<Program>, ctx: Context, gasLimit: int,
                   storage: map<string, int>, balances: map<string, real>): Execution
  {
    if source.None? then NotStarted(if gasLimit < 0 then 0 else gasLimit, InvalidProgram, storage)
    else if gasLimit < 0 then NotStarted(0, NegativeGasLimit, storage)
    else
      var m := InitialMemory(storage, balances);
      GasNeverGrows(source.value, ctx, m, 0, gasLimit);
      Report(gasLimit, Run(source.value, ctx, m, 0, gasLimit))
  }
}

/** Derived rules for reasoning about known programs: what one instruction does to a run
    when it does not fault. */
module UvmRules {
  import opened Base
  import opened Uvm
  import opened UvmTheorems

  function WordOf(values: WordMap, key: string): Option<int> {
    if key in values && values[key].Some? then Some(Normalize(values[key].value)) else None
  }

  lemma WordFacts(v: int)
    ensures IsWord(Normalize(v)) && (IsWord(v) ==> Normalize(v) == v)
  {
  }

  lemma FlagFacts(b: bool)
    ensures IsWord(Flag(b)) && Normalize(Flag(b)) == Flag(b)
  {
  }

  // The instruction at pc is ins, and its gas is there.
  predicate Fetches(p: Program, pc: nat, gas: nat, ins: Instruction) {
    pc < |p| && p[pc] == ins && GasCost(ins.op).Some? && GasCost(ins.op).value <= gas
  }

  predicate HasRoom(m: Memory) {
    |m.stack| < MAX_STACK_ITEMS
  }

  lemma Advance(p: Program, ctx: Context, m: Memory, pc: nat, gas: nat, m': Memory, jumped: Option<nat>)
    requires pc < |p| && !p[pc].op.HALT?
    requires GasCost(p[pc].op).Some? && GasCost(p[pc].op).value <= gas
    requires Step(p[pc], ctx, m, |p|) == StepResult(m', Success(jumped))
    ensures Run(p, ctx, m, pc, gas) == Run(p, ctx, m', NextPc(pc, jumped), gas - GasCost(p[pc].op).value)
  {
  }

  lemma Stop(p: Program, ctx: Context, m: Memory, pc: nat, gas: nat)
    requires pc < |p| && p[pc] == Instruction(HALT, [])
    ensures Run(p, ctx, m, pc, gas) == Final(Completed, m, pc, gas)
  {
  }

  lemma Fault(p: Program, ctx: Context, m: Memory, pc: nat, gas: nat)
    requires pc < |p|
    requires GasCost(p[pc].op).Some? && GasCost(p[pc].op).value <= gas
    requires Step(p[pc], ctx, m, |p|).signal.Failure?
    ensures Run(p, ctx, m, pc, gas).ending.Trapping?
  {
  }

  lemma Push(p: Program, ctx: Context, m: Memory, pc: nat, gas: nat, v: int) returns (m': Memory)
    requires Fetches(p, pc, gas, Instruction(PUSH, [Operand.Word(v)]))
    requires HasRoom(m) && IsWord(v)
    ensures m' == m.(stack := m.stack + [v])
    ensures Run(p, ctx, m, pc, gas) == Run(p, ctx, m', pc + 1, gas - 1)
  {
    hide Run, Normalize, IsWord;
    WordFacts(v);
    m' := m.(stack := m.stack + [v]);
    Advance(p, ctx, m, pc, gas, m', None);
  }

  lemma Dup(p: Program, ctx: Context, m: Memory, pc: nat, gas: nat) returns (m': Memory)
    requires Fetches(p, pc, gas, Instruction(DUP, []))
    requires HasRoom(m) && m.stack != [] && IsWord(Top(m))
    ensures m' == m.(stack := m.stack + [Top(m)])
    ensures Run(p, ctx, m, pc, gas) == Run(p, ctx, m', pc + 1, gas - 2)
  {
    hide Run, Normalize, IsWord;
    WordFacts(Top(m));
    m' := m.(stack := m.stack + [Top(m)]);
    Advance(p, ctx, m, pc, gas, m', None);
  }

  lemma Load(p: Program, ctx: Context, m: Memory, pc: nat, gas: nat, key: string) returns (m': Memory)
    requires Fetches(p, pc, gas, Instruction(LOAD, [Key(key)]))
    requires HasRoom(m) && key != "" && IsWord(Get(m.storage, key, 0))
    ensures m' == m.(stack := m.stack + [Get(m.storage, key, 0)])
    ensures Run(p, ctx, m, pc, gas) == Run(p, ctx, m', pc + 1, gas - 25)
  {
    hide Run, Normalize, IsWord;
    WordFacts(Get(m.storage, key, 0));
    m' := m.(stack := m.stack + [Get(m.storage, key, 0)]);
    Advance(p, ctx, m, pc, gas, m', None);
  }

  lemma MemLoad(p: Program, ctx: Context, m: Memory, pc: nat, gas: nat, key: string) returns (m': Memory)
    requires Fetches(p, pc, gas, Instruction(MEM_LOAD, [Key(key)]))
    requires HasRoom(m) && key != "" && IsWord(Get(m.scratch, key, 0))
    ensures m' == m.(stack := m.stack + [Get(m.scratch, key, 0)])
    ensures Run(p, ctx, m, pc, gas) == Run(p, ctx, m', pc + 1, gas - 3)
  {
    hide Run, Normalize, IsWord;
    WordFacts(Get(m.scratch, key, 0));
    m' := m.(stack := m.stack + [Get(m.scratch, key, 0)]);
    Advance(p, ctx, m, pc, gas, m', None);
  }

  lemma Store(p: Program, ctx: Context, m: Memory, pc: nat, gas: nat, key: string) returns (m': Memory)
    requires Fetches(p, pc, gas, Instruction(STORE, [Key(key)]))
    requires m.stack != [] && key != ""
    ensures m' == Popped(m).(storage := m.storage[key := Top(m)])
    ensures Run(p, ctx, m, pc, gas) == Run(p, ctx, m', pc + 1, gas - 100)
  {
    hide Run, Normalize, IsWord;
    m' := Popped(m).(storage := m.storage[key := Top(m)]);
    Advance(p, ctx, m, pc, gas, m', None);
  }

  lemma MemStore(p: Program, ctx: Context, m: Memory, pc: nat, gas: nat, key: string) returns (m': Memory)
    requires Fetches(p, pc, gas, Instruction(MEM_STORE, [Key(key)]))
    requires m.stack != [] && key != ""
    ensures m' == Popped(m).(scratch := m.scratch[key := Top(m)])
    ensures Run(p, ctx, m, pc, gas) == Run(p, ctx, m', pc + 1, gas - 5)
  {
    hide Run, Normalize, IsWord;
    m' := Popped(m).(scratch := m.scratch[key := Top(m)]);
    Advance(p, ctx, m, pc, gas, m', None);
  }

  lemma ReadMetadata(p: Program, ctx: Context, m: Memory, pc: nat, gas: nat, key: string) returns (m': Memory)
    requires Fetches(p, pc, gas, Instruction(READ_METADATA, [Key(key)]))
    requires HasRoom(m) && key != "" && WordOf(ctx.metadata, key).Some?
    ensures m' == m.(stack := m.stack + [WordOf(ctx.metadata, key).value])
    ensures Run(p, ctx, m, pc, gas) == Run(p, ctx, m', pc + 1, gas - 10)
  {
    hide Run, Normalize, IsWord;
    m' := m.(stack := m.stack + [WordOf(ctx.metadata, key).value]);
    Advance(p, ctx, m, pc, gas, m', None);
  }

  lemma ReadInput(p: Program, ctx: Context, m: Memory, pc: nat, gas: nat, key: string) returns (m': Memory)
    requires Fetches(p, pc, gas, Instruction(READ_INPUT, [Key(key)]))
    requires HasRoom(m) && key != "" && WordOf(ctx.input, key).Some?
    ensures m' == m.(stack := m.stack + [WordOf(ctx.input, key).value])
    ensures Run(p, ctx, m, pc, gas) == Run(p, ctx, m', pc + 1, gas - 10)
  {
    hide Run, Normalize, IsWord;
    m' := m.(stack := m.stack + [WordOf(ctx.input, key).value]);
    Advance(p, ctx, m, pc, gas, m', None);
  }

  lemma TxSender(p: Program, ctx: Context, m: Memory, pc: nat, gas: nat) returns (m': Memory)
    requires Fetches(p, pc, gas, Instruction(TX_SENDER, []))
    requires HasRoom(m) && ctx.senderWord.Some?
    ensures m' == m.(stack := m.stack + [Normalize(ctx.senderWord.value)])
    ensures Run(p, ctx, m, pc, gas) == Run(p, ctx, m', pc + 1, gas - 2)
  {
    hide Run, Normalize, IsWord;
    m' := m.(stack := m.stack + [Normalize(ctx.senderWord.value)]);
    Advance(p, ctx, m, pc, gas, m', None);
  }

  lemma BlockHeight(p: Program, ctx: Context, m: Memory, pc: nat, gas: nat) returns (m': Memory)
    requires Fetches(p, pc, gas, Instruction(BLOCK_HEIGHT, []))
    requires HasRoom(m)
    ensures m' == m.(stack := m.stack + [Normalize(ctx.blockHeight)])
    ensures Run(p, ctx, m, pc, gas) == Run(p, ctx, m', pc + 1, gas - 2)
  {
    hide Run, Normalize, IsWord;
    m' := m.(stack := m.stack + [Normalize(ctx.blockHeight)]);
    Advance(p, ctx, m, pc, gas, m', None);
  }

  lemma Sha(p: Program, ctx: Context, m: Memory, pc: nat, gas: nat) returns (m': Memory)
    requires Fetches(p, pc, gas, Instruction(SHA256, []))
    requires HasRoom(m) && m.stack != []
    ensures m' == Popped(m).(stack := Popped(m).stack + [Normalize(ctx.sha256(Top(m)))])
    ensures Run(p, ctx, m, pc, gas) == Run(p, ctx, m', pc + 1, gas - 20)
  {
    hide Run, Normalize, IsWord;
    m' := Popped(m).(stack := Popped(m).stack + [Normalize(ctx.sha256(Top(m)))]);
    Advance(p, ctx, m, pc, gas, m', None);
  }

  lemma HasReveal(p: Program, ctx: Context, m: Memory, pc: nat, gas: nat, wallet: string, request: string) returns (m': Memory)
    requires Fetches(p, pc, gas, Instruction(HAS_REVEAL, [Key(wallet), Key(request)]))
    requires HasRoom(m) && wallet != "" && request != ""
    ensures m' == m.(stack := m.stack + [Flag(wallet in Get(ctx.revealed, request, map[]))])
    ensures Run(p, ctx, m, pc, gas) == Run(p, ctx, m', pc + 1, gas - 10)
  {
    hide Run, Normalize;
    WordFacts(Flag(wallet in Get(ctx.revealed, request, map[])));
    m' := m.(stack := m.stack + [Flag(wallet in Get(ctx.revealed, request, map[]))]);
    Advance(p, ctx, m, pc, gas, m', None);
  }

  lemma ReadReveal(p: Program, ctx: Context, m: Memory, pc: nat, gas: nat, wallet: string, request: string) returns (m': Memory)
    requires Fetches(p, pc, gas, Instruction(READ_REVEAL, [Key(wallet), Key(request)]))
    requires HasRoom(m) && wallet != "" && request != ""
    requires wallet in Get(ctx.revealed, request, map[])
    ensures m' == m.(stack := m.stack + [Normalize(ctx.revealed[request][wallet].seed)])
    ensures Run(p, ctx, m, pc, gas) == Run(p, ctx, m', pc + 1, gas - 30)
  {
    hide Run, Normalize, IsWord;
    m' := m.(stack := m.stack + [Normalize(ctx.revealed[request][wallet].seed)]);
    Advance(p, ctx, m, pc, gas, m', None);
  }

  lemma Binary(p: Program, ctx: Context, m: Memory, pc: nat, gas: nat, op: Opcode, v: int) returns (m': Memory)
    requires IsBinary(op) && Fetches(p, pc, gas, Instruction(op, []))
    requires 2 <= |m.stack| <= MAX_STACK_ITEMS
    requires BinaryValue(op, Top(Popped(m)), Top(m)) == Success(v)
    ensures m' == m.(stack := m.stack[..|m.stack| - 2] + [Normalize(v)])
    ensures Run(p, ctx, m, pc, gas) == Run(p, ctx, m', pc + 1, gas - GasCost(op).value)
  {
    hide Run, Normalize, BinaryValue;
    m' := m.(stack := m.stack[..|m.stack| - 2] + [Normalize(v)]);
    assert Popped(Popped(m)).stack == m.stack[..|m.stack| - 2];
    Advance(p, ctx, m, pc, gas, m', None);
  }

  lemma JumpIf(p: Program, ctx: Context, m: Memory, pc: nat, gas: nat, target: nat) returns (m': Memory)
    requires Fetches(p, pc, gas, Instruction(JUMPI, [Operand.Word(target)]))
    requires target < |p| && m.stack != []
    ensures m' == Popped(m)
    ensures Run(p, ctx, m, pc, gas) == Run(p, ctx, m', if Top(m) != 0 then target else pc + 1, gas - 5)
  {
    hide Run;
    m' := Popped(m);
    Advance(p, ctx, m, pc, gas, m', if Top(m) != 0 then Some(target) else None);
  }

  // The account an operand names.
  function Account(ctx: Context, name: string): string {
    if name == CONTRACT_SELF then ctx.contractAddress else name
  }

  predicate Affordable(ctx: Context, m: Memory, t: Transfer) {
    t.amount > 0 && MaySpend(ctx, t.source, t.requestId) && Bal(m.balances, t.source) >= t.amount as real
  }

  // A transfer either is booked, or the run ends in a fault.
  lemma Pay(p: Program, ctx: Context, m: Memory, pc: nat, gas: nat,
            source: string, receiver: string, request: string) returns (m': Memory)
    requires Fetches(p, pc, gas, Instruction(TRANSFER_FROM, [Key(source), Key(receiver), Key(request)]))
    requires m.stack != [] && source != "" && receiver != "" && request != ""
    ensures var t := Transfer(Account(ctx, source), Account(ctx, receiver), Top(m), request);
            && m' == Booked(Popped(m), t)
            && (if Affordable(ctx, m, t) then Run(p, ctx, m, pc, gas) == Run(p, ctx, m', pc + 1, gas - 50)
                else Run(p, ctx, m, pc, gas).ending.Trapping?)
  {
    hide Run, Booked, Bal;
    var t := Transfer(Account(ctx, source), Account(ctx, receiver), Top(m), request);
    m' := Booked(Popped(m), t);
    if Affordable(ctx, m, t) {
      Advance(p, ctx, m, pc, gas, m', None);
    } else {
      Fault(p, ctx, m, pc, gas);
    }
  }

  // ---- Idioms that start and end with an empty stack --------------------------------------

  lemma TestStorage(p: Program, ctx: Context, m: Memory, pc: nat, gas: nat, key: string, target: nat)
    requires Fetches(p, pc, gas, Instruction(LOAD, [Key(key)]))
    requires Fetches(p, pc + 1, gas - 25, Instruction(JUMPI, [Operand.Word(target)]))
    requires m.stack == [] && key != "" && IsWord(Get(m.storage, key, 0)) && target < |p|
    ensures Run(p, ctx, m, pc, gas)
         == Run(p, ctx, m, if Get(m.storage, key, 0) != 0 then target else pc + 2, gas - 30)
  {
    hide Run, Step, IsWord;
    var m1 := Load(p, ctx, m, pc, gas, key);
    assert m1 == m.(stack := [Get(m.storage, key, 0)]);
    var m2 := JumpIf(p, ctx, m1, pc + 1, gas - 25, target);
    assert m2 == m;
  }

  lemma TestCell(p: Program, ctx: Context, m: Memory, pc: nat, gas: nat, key: string, target: nat)
    requires Fetches(p, pc, gas, Instruction(MEM_LOAD, [Key(key)]))
    requires Fetches(p, pc + 1, gas - 3, Instruction(JUMPI, [Operand.Word(target)]))
    requires m.stack == [] && key != "" && IsWord(Get(m.scratch, key, 0)) && target < |p|
    ensures Run(p, ctx, m, pc, gas)
         == Run(p, ctx, m, if Get(m.scratch, key, 0) != 0 then target else pc + 2, gas - 8)
  {
    hide Run, Step, IsWord;
    var m1 := MemLoad(p, ctx, m, pc, gas, key);
    assert m1 == m.(stack := [Get(m.scratch, key, 0)]);
    var m2 := JumpIf(p, ctx, m1, pc + 1, gas - 3, target);
    assert m2 == m;
  }

  lemma PushStore(p: Program, ctx: Context, m: Memory, pc: nat, gas: nat, v: int, key: string) returns (m': Memory)
    requires Fetches(p, pc, gas, Instruction(PUSH, [Operand.Word(v)]))
    requires Fetches(p, pc + 1, gas - 1, Instruction(STORE, [Key(key)]))
    requires m.stack == [] && key != "" && IsWord(v)
    ensures m' == m.(storage := m.storage[key := v])
    ensures Run(p, ctx, m, pc, gas) == Run(p, ctx, m', pc + 2, gas - 101)
  {
    hide Run, Step, IsWord;
    var m1 := Push(p, ctx, m, pc, gas, v);
    assert m1 == m.(stack := [v]);
    m' := Store(p, ctx, m1, pc + 1, gas - 1, key);
  }

  lemma NoteReveal(p: Program, ctx: Context, m: Memory, pc: nat, gas: nat,
                   wallet: string, request: string, cell: string) returns (m': Memory)
    requires Fetches(p, pc, gas, Instruction(HAS_REVEAL, [Key(wallet), Key(request)]))
    requires Fetches(p, pc + 1, gas - 10, Instruction(MEM_STORE, [Key(cell)]))
    requires m.stack == [] && wallet != "" && request != "" && cell != ""
    ensures m' == m.(scratch := m.scratch[cell := Flag(wallet in Get(ctx.revealed, request, map[]))])
    ensures Run(p, ctx, m, pc, gas) == Run(p, ctx, m', pc + 2, gas - 15)
  {
    hide Run, Step;
    var m1 := HasReveal(p, ctx, m, pc, gas, wallet, request);
    assert m1 == m.(stack := [Flag(wallet in Get(ctx.revealed, request, map[]))]);
    m' := MemStore(p, ctx, m1, pc + 1, gas - 10, cell);
  }

  // A transfer of v either is booked, or the run ends in a fault.
  lemma PushPay(p: Program, ctx: Context, m: Memory, pc: nat, gas: nat, v: int,
                source: string, receiver: string, request: string) returns (m': Memory)
    requires Fetches(p, pc, gas, Instruction(PUSH, [Operand.Word(v)]))
    requires Fetches(p, pc + 1, gas - 1, Instruction(TRANSFER_FROM, [Key(source), Key(receiver), Key(request)]))
    requires m.stack == [] && source != "" && receiver != "" && request != "" && IsWord(v)
    ensures var t := Transfer(Account(ctx, source), Account(ctx, receiver), v, request);
            && m' == Booked(m, t)
            && (if Affordable(ctx, m, t) then Run(p, ctx, m, pc, gas) == Run(p, ctx, m', pc + 2, gas - 51)
                else Run(p, ctx, m, pc, gas).ending.Trapping?)
  {
    hide Run, Step, IsWord, Bal, Account;
    var m1 := Push(p, ctx, m, pc, gas, v);
    assert m1 == m.(stack := [v]);
    m' := Pay(p, ctx, m1, pc + 1, gas - 1, source, receiver, request);
    assert Popped(m1) == m;
  }

  // A comparison of the only two words on the stack, and a jump on its outcome.
  lemma CompareAndJump(p: Program, ctx: Context, m: Memory, pc: nat, gas: nat, op: Opcode, outcome: bool, target: nat)
    requires IsBinary(op) && Fetches(p, pc, gas, Instruction(op, []))
    requires Fetches(p, pc + 1, gas - GasCost(op).value, Instruction(JUMPI, [Operand.Word(target)]))
    requires |m.stack| == 2 && BinaryValue(op, m.stack[0], m.stack[1]) == Success(Flag(outcome)) && target < |p|
    ensures Run(p, ctx, m, pc, gas)
         == Run(p, ctx, m.(stack := []), if outcome then target else pc + 2, gas - GasCost(op).value - 5)
  {
    hide Run, Step, Normalize, BinaryValue;
    FlagFacts(outcome);
    assert Top(Popped(m)) == m.stack[0];
    var m1 := Binary(p, ctx, m, pc, gas, op, Flag(outcome));
    assert m1 == m.(stack := [Flag(outcome)]);
    var m2 := JumpIf(p, ctx, m1, pc + 1, gas - GasCost(op).value, target);
    assert m2 == m.(stack := []);
  }
}

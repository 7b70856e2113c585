/** What short programs compute, run from beginning to end under any gas limit: every arithmetic
    instruction, the stack instructions and the jumps. */
module UvmPrograms {
  import opened Base
  import opened Uvm
  import opened UvmRules
  import opened UvmTheorems
  import A = Arithmetic

  // ---- Arithmetic -------------------------------------------------------------------------

  // What an instruction leaves for the words a, pushed first, and b: sums, differences and products
  // up to a multiple of 2^256, quotient and remainder of a by b, comparisons of a with b.
  ghost predicate Computes(op: Opcode, a: int, b: int, v: int) {
    IsWord(v) &&
    match op
    case ADD => v == a + b || v == a + b - WORD_MODULUS
    case SUB => v == a - b || v == a - b + WORD_MODULUS
    case MUL => v == a * b % WORD_MODULUS
    case DIV => v * b <= a < (v + 1) * b
    case MOD => 0 < b && v < b && (a - v) % b == 0
    case EQ => v == (if a == b then 1 else 0)
    case LT => v == (if a < b then 1 else 0)
    case GT => v == (if a > b then 1 else 0)
    case AND => v == (if a == 0 || b == 0 then 0 else 1)
    case OR => v == (if a == 0 && b == 0 then 0 else 1)
    case XOR => forall i: nat :: BitOf(v, i) == (BitOf(a, i) != BitOf(b, i))
    case _ => false
  }

  // Whether the i-th bit of a number is set.
  predicate BitOf(n: int, i: nat)
    decreases i
  {
    if i == 0 then n % 2 == 1 else BitOf(n / 2, i - 1)
  }

  lemma {:induction false} XorBits(a: nat, b: nat, i: nat)
    ensures BitOf(Xor(a, b), i) == (BitOf(a, i) != BitOf(b, i))
    decreases i
  {
    var n := Xor(a / 2, b / 2);
    assert Xor(a, b) == 2 * n + (a % 2 + b % 2) % 2;
    if i > 0 {
      XorBits(a / 2, b / 2, i - 1);
    }
  }

  predicate Defined(op: Opcode, b: int) {
    (op.DIV? || op.MOD?) ==> b != 0
  }

  lemma {:induction false} XorIsWord(a: nat, b: nat, n: nat)
    requires a < Pow2(n) && b < Pow2(n)
    ensures Xor(a, b) < Pow2(n)
    decreases n
  {
    if n > 0 {
      XorIsWord(a / 2, b / 2, n - 1);
      var x := Xor(a / 2, b / 2);
      assert Xor(a, b) == 2 * x + (a % 2 + b % 2) % 2;
    }
  }

  function Pow2(n: nat): nat {
    if n == 0 then 1 else 2 * Pow2(n - 1)
  }

  lemma {:induction false} Pow2Add(m: nat, n: nat)
    ensures Pow2(m + n) == Pow2(m) * Pow2(n)
    decreases m
  {
    if m > 0 {
      Pow2Add(m - 1, n);
    }
  }

  lemma Squared(m: nat, n: nat, p: nat, q: nat)
    requires n == 2 * m && Pow2(m) == p && q == p * p
    ensures Pow2(n) == q
  {
    Pow2Add(m, m);
  }

  // A word has n bits, n being 256.
  lemma WordBits(one: nat, n: nat)
    requires one == 1 && n == 256 * one
    ensures Pow2(n) == WORD_MODULUS
  {
    assert Pow2(one) == 2;
    Squared(one, 2 * one, 2, 4);
    Squared(2 * one, 4 * one, 4, 16);
    Squared(4 * one, 8 * one, 16, 256);
    Squared(8 * one, 16 * one, 256, 0x1_0000);
    Squared(16 * one, 32 * one, 0x1_0000, 0x1_0000_0000);
    Squared(32 * one, 64 * one, 0x1_0000_0000, 0x1_0000_0000_0000_0000);
    Squared(64 * one, 128 * one, 0x1_0000_0000_0000_0000, 0x1_0000_0000_0000_0000_0000_0000_0000_0000);
    Squared(128 * one, n, 0x1_0000_0000_0000_0000_0000_0000_0000_0000, WORD_MODULUS);
  }

  lemma DivisionComputes(a: int, b: int)
    requires 0 <= a && 0 < b
    ensures var q, r := a / b, a % b;
            q * b <= a < (q + 1) * b && 0 <= r < b && (a - r) % b == 0 && 0 <= q <= a && r <= a
  {
    var q, r := a / b, a % b;
    assert a == b * q + r && (q + 1) * b == b * q + b;
    MultipleOf(b, q);
    AtLeast(b, q);
  }

  lemma AtLeast(b: int, q: int)
    requires 0 < b && 0 <= q
    ensures 0 <= q <= b * q
  {
  }

  lemma MultipleOf(b: int, q: int)
    requires b > 0
    ensures b * q % b == 0
  {
    A.AddMultiple(b, q, 0);
  }

  lemma SmallWords(v: int)
    requires IsWord(v)
    ensures Normalize(v) == v
  {
  }

  lemma DivisionCase(op: Opcode, a: int, b: int)
    requires (op.DIV? || op.MOD?) && IsWord(a) && IsWord(b) && b != 0
    ensures BinaryValue(op, a, b).Success? && Computes(op, a, b, Normalize(BinaryValue(op, a, b).value))
  {
    hide Normalize, BitOf, Xor;
    DivisionComputes(a, b);
    SmallWords(a / b);
    SmallWords(a % b);
  }

  lemma XorCase(a: int, b: int)
    requires IsWord(a) && IsWord(b)
    ensures BinaryValue(XOR, a, b).Success? && Computes(XOR, a, b, Normalize(BinaryValue(XOR, a, b).value))
  {
    hide Normalize, BitOf, Xor, Pow2;
    var one: nat :| one == 1;
    WordBits(one, 256 * one);
    XorIsWord(a, b, 256 * one);
    SmallWords(Xor(a, b));
    forall i: nat
      ensures BitOf(Xor(a, b), i) == (BitOf(a, i) != BitOf(b, i))
    {
      XorBits(a, b, i);
    }
  }

  lemma ProductCase(a: int, b: int)
    ensures Computes(MUL, a, b, Normalize(BinaryValue(MUL, a, b).value))
  {
    hide BitOf, Xor;
    WordFacts(a * b);
  }

  lemma SumCase(op: Opcode, a: int, b: int)
    requires IsBinary(op) && !op.DIV? && !op.MOD? && !op.XOR? && !op.MUL? && IsWord(a) && IsWord(b)
    ensures Computes(op, a, b, Normalize(BinaryValue(op, a, b).value))
  {
    hide BitOf, Xor;
  }

  // Every instruction is defined but for a zero divisor, and computes what it should.
  lemma ComputesValue(op: Opcode, a: int, b: int)
    requires IsBinary(op) && IsWord(a) && IsWord(b)
    ensures BinaryValue(op, a, b).Success? <==> Defined(op, b)
    ensures Defined(op, b) ==> Computes(op, a, b, Normalize(BinaryValue(op, a, b).value))
  {
    hide Computes, Normalize, Xor;
    if op.DIV? || op.MOD? {
      if b != 0 {
        DivisionCase(op, a, b);
      }
    } else if op.XOR? {
      XorCase(a, b);
    } else if op.MUL? {
      ProductCase(a, b);
    } else {
      SumCase(op, a, b);
    }
  }

  // ---- A calculation ----------------------------------------------------------------------

  // Works out one instruction on two words and stores the outcome.
  function Calculation(op: Opcode, a: int, b: int, key: string): Program {
    [Instruction(PUSH, [Operand.Word(a)]), Instruction(PUSH, [Operand.Word(b)]), Instruction(op, []),
     Instruction(STORE, [Key(key)]), Instruction(HALT, [])]
  }

  lemma CalculationText(op: Opcode, a: int, b: int, key: string)
    ensures var p := Calculation(op, a, b, key);
            && |p| == 5 && p[0] == Instruction(PUSH, [Operand.Word(a)]) && p[1] == Instruction(PUSH, [Operand.Word(b)])
            && p[2] == Instruction(op, []) && p[3] == Instruction(STORE, [Key(key)]) && p[4] == Instruction(HALT, [])
  {
  }

  // The gas it takes: comparisons are cheapest, products and quotients dearest.
  function CalculationGas(op: Opcode): nat
    requires IsBinary(op)
  {
    102 + (if op.EQ? || op.LT? || op.GT? then 2 else if op.MUL? || op.DIV? || op.MOD? then 5 else 3)
  }

  lemma GasOfBinary(op: Opcode)
    requires IsBinary(op)
    ensures GasCost(op) == Some(CalculationGas(op) - 102)
  {
  }

  lemma TwoPushes(op: Opcode, a: int, b: int, key: string, ctx: Context, m: Memory, gas: nat)
    requires IsBinary(op) && IsWord(a) && IsWord(b) && m.stack == [] && gas >= 2
    ensures Run(Calculation(op, a, b, key), ctx, m, 0, gas) == Run(Calculation(op, a, b, key), ctx, m.(stack := [a, b]), 2, gas - 2)
  {
    hide Run, Step, IsWord, Calculation;
    CalculationText(op, a, b, key);
    var p := Calculation(op, a, b, key);
    var m1 := Push(p, ctx, m, 0, gas, a);
    assert m1 == m.(stack := [a]);
    var m2 := Push(p, ctx, m1, 1, gas - 1, b);
    assert m2 == m.(stack := [a, b]);
  }

  // The error of a division by zero.
  function DivisorError(op: Opcode): UvmError {
    if op.DIV? then DivisionByZero else ModuloByZero
  }

  lemma OutcomeIsStored(op: Opcode, a: int, b: int, key: string, ctx: Context, m: Memory, gas: nat, v: int)
    requires key != "" && m.stack == [] && gas >= 100
    ensures Run(Calculation(op, a, b, key), ctx, m.(stack := [v]), 3, gas) == Final(Completed, m.(storage := m.storage[key := v]), 4, gas - 100)
  {
    hide Run, Step, Calculation;
    CalculationText(op, a, b, key);
    var p := Calculation(op, a, b, key);
    var m4 := Store(p, ctx, m.(stack := [v]), 3, gas, key);
    assert m4 == m.(storage := m.storage[key := v]);
    Stop(p, ctx, m4, 4, gas - 100);
  }

  lemma WordsMeet(op: Opcode, a: int, b: int, key: string, ctx: Context, m: Memory, gas: nat)
    requires IsBinary(op) && m.stack == [] && gas >= CalculationGas(op) - 102 && Defined(op, b)
    ensures BinaryValue(op, a, b).Success?
    ensures Run(Calculation(op, a, b, key), ctx, m.(stack := [a, b]), 2, gas)
         == Run(Calculation(op, a, b, key), ctx, m.(stack := [Normalize(BinaryValue(op, a, b).value)]), 3, gas - (CalculationGas(op) - 102))
  {
    hide Run, Step, Calculation, Normalize, GasCost, BinaryValue, CalculationGas;
    CalculationText(op, a, b, key);
    GasOfBinary(op);
    DefinedWhen(op, a, b);
    var m2, v := m.(stack := [a, b]), BinaryValue(op, a, b).value;
    assert Top(Popped(m2)) == a && Top(m2) == b;
    var m3 := Binary(Calculation(op, a, b, key), ctx, m2, 2, gas, op, v);
    assert m3 == m.(stack := [Normalize(v)]);
  }

  lemma CalculationEnds(op: Opcode, a: int, b: int, key: string, ctx: Context, m: Memory, gas: nat)
    requires IsBinary(op) && IsWord(a) && IsWord(b) && key != "" && m.stack == [] && gas >= CalculationGas(op)
    ensures var f := Run(Calculation(op, a, b, key), ctx, m, 0, gas);
            if Defined(op, b) then
              && BinaryValue(op, a, b).Success?
              && f == Final(Completed, m.(storage := m.storage[key := Normalize(BinaryValue(op, a, b).value)]), 4, gas - CalculationGas(op))
            else f.ending == Trapping(Error(DivisorError(op)))
  {
    hide Run, Step, IsWord, Calculation, Normalize, BinaryValue;
    TwoPushes(op, a, b, key, ctx, m, gas);
    if Defined(op, b) {
      WordsMeet(op, a, b, key, ctx, m, gas - 2);
      OutcomeIsStored(op, a, b, key, ctx, m, gas - CalculationGas(op) + 100, Normalize(BinaryValue(op, a, b).value));
    } else {
      CalculationText(op, a, b, key);
      DividesByZero(Calculation(op, a, b, key), ctx, m.(stack := [a, b]), 2, gas - 2, op);
    }
  }

  lemma DefinedWhen(op: Opcode, a: int, b: int)
    requires IsBinary(op)
    ensures BinaryValue(op, a, b).Success? <==> Defined(op, b)
  {
  }

  lemma DividesByZero(p: Program, ctx: Context, m: Memory, pc: nat, gas: nat, op: Opcode)
    requires (op.DIV? || op.MOD?) && pc < |p| && p[pc] == Instruction(op, []) && gas >= 5 && |m.stack| >= 2 && Top(m) == 0
    ensures Run(p, ctx, m, pc, gas).ending == Trapping(Error(DivisorError(op)))
  {
  }

  // Under any gas limit: the calculation succeeds exactly when it is defined and its gas is there,
  // and then the outcome is stored under the key and nothing else changes.
  lemma CalculationRuns(op: Opcode, a: int, b: int, key: string, ctx: Context, limit: nat, storage: map<string, int>, balances: map<string, real>)
    requires IsBinary(op) && IsWord(a) && IsWord(b) && key != ""
    ensures var e, words := Execute(Some(Calculation(op, a, b, key)), ctx, limit, storage, balances), InitialMemory(storage, balances).storage;
            && (e.success <==> Defined(op, b) && limit >= CalculationGas(op))
            && (e.success ==> e.gasUsed == CalculationGas(op) && e.stack == [] && key in e.storage
                              && e.storage == words[key := e.storage[key]] && Computes(op, a, b, e.storage[key]))
            && (!Defined(op, b) && limit >= CalculationGas(op) ==> e.error == Some(DivisorError(op)))
  {
    hide Run, Step, IsWord, Calculation, Normalize, BinaryValue, Computes;
    var ample := CalculationGas(op);
    ComputesValue(op, a, b);
    CalculationEnds(op, a, b, key, ctx, InitialMemory(storage, balances), ample);
    if limit >= ample {
      CalculationEnds(op, a, b, key, ctx, InitialMemory(storage, balances), limit);
    }
    GasLimitIndependence(Some(Calculation(op, a, b, key)), ctx, ample, limit, storage, balances);
  }

  // ---- The stack --------------------------------------------------------------------------

  // Drops the last of three words, swaps the other two, negates the one on top and doubles it.
  function Shuffle(a: int, b: int, c: int): Program {
    [Instruction(PUSH, [Operand.Word(a)]), Instruction(PUSH, [Operand.Word(b)]), Instruction(PUSH, [Operand.Word(c)]),
     Instruction(POP, []), Instruction(SWAP, []), Instruction(NOT, []), Instruction(DUP, []), Instruction(HALT, [])]
  }

  lemma ShuffleText(a: int, b: int, c: int)
    ensures var p := Shuffle(a, b, c);
            && |p| == 8 && p[0] == Instruction(PUSH, [Operand.Word(a)]) && p[1] == Instruction(PUSH, [Operand.Word(b)])
            && p[2] == Instruction(PUSH, [Operand.Word(c)]) && p[3] == Instruction(POP, []) && p[4] == Instruction(SWAP, [])
            && p[5] == Instruction(NOT, []) && p[6] == Instruction(DUP, []) && p[7] == Instruction(HALT, [])
  {
  }

  lemma PopDrops(p: Program, ctx: Context, m: Memory, pc: nat, gas: nat, rest: seq<int>, x: int)
    requires Fetches(p, pc, gas, Instruction(POP, [])) && m.stack == rest + [x]
    ensures Run(p, ctx, m, pc, gas) == Run(p, ctx, m.(stack := rest), pc + 1, gas - 1)
  {
    hide Run;
    assert m.stack[..|m.stack| - 1] == rest;
    Advance(p, ctx, m, pc, gas, m.(stack := rest), None);
  }

  lemma SwapSwaps(p: Program, ctx: Context, m: Memory, pc: nat, gas: nat, rest: seq<int>, x: int, y: int)
    requires Fetches(p, pc, gas, Instruction(SWAP, [])) && m.stack == rest + [x, y]
    ensures Run(p, ctx, m, pc, gas) == Run(p, ctx, m.(stack := rest + [y, x]), pc + 1, gas - 2)
  {
    hide Run;
    assert Popped(Popped(m)).stack == rest && Top(m) == y && Top(Popped(m)) == x;
    Advance(p, ctx, m, pc, gas, m.(stack := rest + [y, x]), None);
  }

  lemma NotNegates(p: Program, ctx: Context, m: Memory, pc: nat, gas: nat, rest: seq<int>, x: int)
    requires Fetches(p, pc, gas, Instruction(NOT, [])) && m.stack == rest + [x] && |m.stack| <= MAX_STACK_ITEMS
    ensures Run(p, ctx, m, pc, gas) == Run(p, ctx, m.(stack := rest + [if x == 0 then 1 else 0]), pc + 1, gas - 2)
  {
    hide Run, Normalize;
    FlagFacts(x == 0);
    assert m.stack[..|m.stack| - 1] == rest;
    Advance(p, ctx, m, pc, gas, m.(stack := rest + [if x == 0 then 1 else 0]), None);
  }

  lemma ThreePushes(a: int, b: int, c: int, ctx: Context, m: Memory, gas: nat)
    requires IsWord(a) && IsWord(b) && IsWord(c) && m.stack == [] && gas >= 3
    ensures Run(Shuffle(a, b, c), ctx, m, 0, gas) == Run(Shuffle(a, b, c), ctx, m.(stack := [a, b, c]), 3, gas - 3)
  {
    hide Run, Step, IsWord, Shuffle;
    ShuffleText(a, b, c);
    var p := Shuffle(a, b, c);
    var m1 := Push(p, ctx, m, 0, gas, a);
    assert m1 == m.(stack := [a]);
    var m2 := Push(p, ctx, m1, 1, gas - 1, b);
    assert m2 == m.(stack := [a, b]);
    var m3 := Push(p, ctx, m2, 2, gas - 2, c);
    assert m3 == m.(stack := [a, b, c]);
  }

  lemma ShuffleEnds(a: int, b: int, c: int, ctx: Context, m: Memory, gas: nat)
    requires IsWord(a) && IsWord(b) && IsWord(c) && m.stack == [] && gas >= 10
    ensures var n := if a == 0 then 1 else 0;
            Run(Shuffle(a, b, c), ctx, m, 0, gas) == Final(Completed, m.(stack := [b, n, n]), 7, gas - 10)
  {
    hide Run, Step, IsWord, Shuffle;
    ShuffleText(a, b, c);
    ThreePushes(a, b, c, ctx, m, gas);
    var p, n := Shuffle(a, b, c), if a == 0 then 1 else 0;
    assert [a, b] + [c] == [a, b, c] && [] + [a, b] == [a, b] && [] + [b, a] == [b, a];
    PopDrops(p, ctx, m.(stack := [a, b, c]), 3, gas - 3, [a, b], c);
    SwapSwaps(p, ctx, m.(stack := [a, b]), 4, gas - 4, [], a, b);
    assert [b] + [a] == [b, a] && [b] + [n] == [b, n];
    NotNegates(p, ctx, m.(stack := [b, a]), 5, gas - 6, [b], a);
    FlagFacts(a == 0);
    var m7 := Dup(p, ctx, m.(stack := [b, n]), 6, gas - 8);
    assert m7 == m.(stack := [b, n, n]);
    Stop(p, ctx, m7, 7, gas - 10);
  }

  // Under any gas limit the words end up where the instructions put them, for ten units of gas.
  lemma ShuffleRuns(a: int, b: int, c: int, ctx: Context, limit: nat, storage: map<string, int>, balances: map<string, real>)
    requires IsWord(a) && IsWord(b) && IsWord(c)
    ensures var e, n := Execute(Some(Shuffle(a, b, c)), ctx, limit, storage, balances), if a == 0 then 1 else 0;
            && (e.success <==> limit >= 10) && (e.success ==> e.stack == [b, n, n] && e.gasUsed == 10)
  {
    hide Run, Step, IsWord, Shuffle;
    ShuffleEnds(a, b, c, ctx, InitialMemory(storage, balances), 10);
    GasLimitIndependence(Some(Shuffle(a, b, c)), ctx, 10, limit, storage, balances);
  }

  // An instruction that needs more words than the stack holds stops the run.
  lemma Underflows(p: Program, ctx: Context, m: Memory, pc: nat, gas: nat)
    requires pc < |p| && p[pc].op in {POP, DUP, SWAP, NOT, SHA256, ADD, SUB, MUL, DIV, MOD, EQ, LT, GT, AND, OR, XOR}
    requires p[pc].operands == [] && gas >= 20
    requires |m.stack| < (if p[pc].op in {POP, DUP, NOT, SHA256} then 1 else 2)
    ensures Run(p, ctx, m, pc, gas).ending == Trapping(Error(StackUnderflow))
  {
    hide BinaryValue;
  }

  // ---- Jumps and cells --------------------------------------------------------------------

  const LEFT: string := "left"
  const RIGHT: string := "right"

  // Stores the larger of two words.
  function Larger(a: int, b: int, key: string): Program {
    [Instruction(PUSH, [Operand.Word(a)]), Instruction(MEM_STORE, [Key(LEFT)]),
     Instruction(PUSH, [Operand.Word(b)]), Instruction(MEM_STORE, [Key(RIGHT)]),
     Instruction(MEM_LOAD, [Key(LEFT)]), Instruction(MEM_LOAD, [Key(RIGHT)]), Instruction(LT, []),
     Instruction(JUMPI, [Operand.Word(10)]), Instruction(MEM_LOAD, [Key(LEFT)]), Instruction(JUMP, [Operand.Word(11)]),
     Instruction(MEM_LOAD, [Key(RIGHT)]), Instruction(STORE, [Key(key)]), Instruction(HALT, [])]
  }

  lemma LargerText(a: int, b: int, key: string)
    ensures var p := Larger(a, b, key);
            && |p| == 13 && p[0] == Instruction(PUSH, [Operand.Word(a)]) && p[1] == Instruction(MEM_STORE, [Key(LEFT)])
            && p[2] == Instruction(PUSH, [Operand.Word(b)]) && p[3] == Instruction(MEM_STORE, [Key(RIGHT)])
            && p[4] == p[8] == Instruction(MEM_LOAD, [Key(LEFT)]) && p[5] == p[10] == Instruction(MEM_LOAD, [Key(RIGHT)])
            && p[6] == Instruction(LT, []) && p[7] == Instruction(JUMPI, [Operand.Word(10)]) && p[9] == Instruction(JUMP, [Operand.Word(11)])
            && p[11] == Instruction(STORE, [Key(key)]) && p[12] == Instruction(HALT, [])
  {
  }

  lemma PushMemStore(p: Program, ctx: Context, m: Memory, pc: nat, gas: nat, v: int, cell: string)
    requires Fetches(p, pc, gas, Instruction(PUSH, [Operand.Word(v)]))
    requires Fetches(p, pc + 1, gas - 1, Instruction(MEM_STORE, [Key(cell)]))
    requires m.stack == [] && cell != "" && IsWord(v)
    ensures Run(p, ctx, m, pc, gas) == Run(p, ctx, m.(scratch := m.scratch[cell := v]), pc + 2, gas - 6)
  {
    hide Run, Step, IsWord;
    var m1 := Push(p, ctx, m, pc, gas, v);
    assert m1 == m.(stack := [v]);
    var m2 := MemStore(p, ctx, m1, pc + 1, gas - 1, cell);
    assert m2 == m.(scratch := m.scratch[cell := v]);
  }

  lemma JumpJumps(p: Program, ctx: Context, m: Memory, pc: nat, gas: nat, target: nat)
    requires Fetches(p, pc, gas, Instruction(JUMP, [Operand.Word(target)])) && target < |p|
    ensures Run(p, ctx, m, pc, gas) == Run(p, ctx, m, target, gas - 3)
  {
    hide Run;
    Advance(p, ctx, m, pc, gas, m, Some(target));
  }

  function Cells(a: int, b: int): map<string, int> {
    map[LEFT := a, RIGHT := b]
  }

  lemma BothInCells(a: int, b: int, key: string, ctx: Context, m: Memory, gas: nat)
    requires IsWord(a) && IsWord(b) && m.stack == [] && m.scratch == map[] && gas >= 18
    ensures Run(Larger(a, b, key), ctx, m, 0, gas) == Run(Larger(a, b, key), ctx, m.(scratch := Cells(a, b), stack := [a, b]), 6, gas - 18)
  {
    hide Run, Step, IsWord, Larger;
    LargerText(a, b, key);
    var p, m4 := Larger(a, b, key), m.(scratch := Cells(a, b));
    PushMemStore(p, ctx, m, 0, gas, a, LEFT);
    PushMemStore(p, ctx, m.(scratch := m.scratch[LEFT := a]), 2, gas - 6, b, RIGHT);
    assert m.scratch[LEFT := a][RIGHT := b] == Cells(a, b);
    var m5 := MemLoad(p, ctx, m4, 4, gas - 12, LEFT);
    assert m5 == m4.(stack := [a]);
    var m6 := MemLoad(p, ctx, m5, 5, gas - 15, RIGHT);
    assert m6 == m4.(stack := [a, b]);
  }

  function LargerGas(a: int, b: int): nat {
    if a < b then 128 else 131
  }

  // Both paths meet at the store.
  lemma LargerIsLoaded(a: int, b: int, key: string, ctx: Context, m: Memory, gas: nat)
    requires IsWord(a) && IsWord(b) && m.stack == [] && m.scratch == Cells(a, b) && gas >= 6
    ensures Run(Larger(a, b, key), ctx, m, 10, gas) == Run(Larger(a, b, key), ctx, m.(stack := [b]), 11, gas - 3)
    ensures Run(Larger(a, b, key), ctx, m, 8, gas) == Run(Larger(a, b, key), ctx, m.(stack := [a]), 11, gas - 6)
  {
    hide Run, Step, IsWord, Larger;
    LargerText(a, b, key);
    var p := Larger(a, b, key);
    var m1 := MemLoad(p, ctx, m, 10, gas, RIGHT);
    assert m1 == m.(stack := [b]);
    var m2 := MemLoad(p, ctx, m, 8, gas, LEFT);
    assert m2 == m.(stack := [a]);
    JumpJumps(p, ctx, m2, 9, gas - 3, 11);
  }

  lemma LargerIsStored(a: int, b: int, key: string, ctx: Context, m: Memory, gas: nat, v: int)
    requires m.stack == [] && key != "" && gas >= 100
    ensures Run(Larger(a, b, key), ctx, m.(stack := [v]), 11, gas) == Final(Completed, m.(storage := m.storage[key := v]), 12, gas - 100)
  {
    hide Run, Step, Larger;
    LargerText(a, b, key);
    var m1 := Store(Larger(a, b, key), ctx, m.(stack := [v]), 11, gas, key);
    assert m1 == m.(storage := m.storage[key := v]);
    Stop(Larger(a, b, key), ctx, m1, 12, gas - 100);
  }

  lemma PathIsChosen(a: int, b: int, key: string, ctx: Context, m: Memory, gas: nat)
    requires m.stack == [] && gas >= 7
    ensures Run(Larger(a, b, key), ctx, m.(stack := [a, b]), 6, gas) == Run(Larger(a, b, key), ctx, m, if a < b then 10 else 8, gas - 7)
  {
    hide Run, Step, Larger;
    LargerText(a, b, key);
    CompareAndJump(Larger(a, b, key), ctx, m.(stack := [a, b]), 6, gas, LT, a < b, 10);
    assert m.(stack := [a, b]).(stack := []) == m;
  }

  lemma LargerEnds(a: int, b: int, key: string, ctx: Context, m: Memory, gas: nat)
    requires IsWord(a) && IsWord(b) && m.stack == [] && m.scratch == map[] && key != "" && gas >= 131
    ensures var max := if a < b then b else a;
            Run(Larger(a, b, key), ctx, m, 0, gas)
            == Final(Completed, m.(scratch := Cells(a, b), storage := m.storage[key := max]), 12, gas - LargerGas(a, b))
  {
    hide Run, Step, IsWord, Larger, Cells;
    var m4, max := m.(scratch := Cells(a, b)), if a < b then b else a;
    BothInCells(a, b, key, ctx, m, gas);
    PathIsChosen(a, b, key, ctx, m4, gas - 18);
    LargerIsLoaded(a, b, key, ctx, m4, gas - 25);
    LargerIsStored(a, b, key, ctx, m4, gas - LargerGas(a, b) + 100, max);
  }

  // Under any gas limit the larger word is stored exactly when the gas of its path is there; the
  // cells hold both words and are no storage.
  lemma LargerRuns(a: int, b: int, key: string, ctx: Context, limit: nat, storage: map<string, int>, balances: map<string, real>)
    requires IsWord(a) && IsWord(b) && key != ""
    ensures var e, max := Execute(Some(Larger(a, b, key)), ctx, limit, storage, balances), if a < b then b else a;
            && (e.success <==> limit >= LargerGas(a, b))
            && (e.success ==> e.gasUsed == LargerGas(a, b) && e.scratch == map[LEFT := a, RIGHT := b]
                              && e.storage == InitialMemory(storage, balances).storage[key := max])
  {
    hide Run, Step, IsWord, Larger;
    LargerEnds(a, b, key, ctx, InitialMemory(storage, balances), 131);
    GasLimitIndependence(Some(Larger(a, b, key)), ctx, 131, limit, storage, balances);
  }

  // ---- Endings ----------------------------------------------------------------------------

  // Every run ends in one of four ways, and its report says in which: it succeeds, reverts on
  // purpose, exhausts its gas or fails; the gas used and the gas left are the limit.
  lemma RunsEndOneWay(source: Option<Program>, ctx: Context, limit: nat, storage: map<string, int>, balances: map<string, real>)
    ensures var e := Execute(source, ctx, limit, storage, balances);
            && (e.success <==> e.error.None?) && (e.reverted <==> e.error == Some(ExecutionReverted))
            && (e.gasExhausted <==> e.error.Some? && e.error.value.OutOfGas?)
            && e.gasUsed + e.gasRemaining == limit && (e.usedAllGas <==> e.gasRemaining == 0) && (e.gasExhausted ==> e.usedAllGas)
  {
    hide Run;
    if source.Some? {
      var p, m := source.value, InitialMemory(storage, balances);
      ExhaustedKeepsNothing(p, ctx, m, 0, limit);
      NothingElseRaises(p, ctx, m, 0, limit);
    }
  }

  // No instruction raises what only the loop or a revert reports.
  lemma {:induction false} NothingElseRaises(p: Program, ctx: Context, m: Memory, pc: nat, gas: nat)
    ensures var f := Run(p, ctx, m, pc, gas);
            f.ending.Trapping? && f.ending.trap.Error? ==> !RaisedByTheLoop(f.ending.trap.error)
    decreases gas
  {
    hide Step;
    if pc < |p| {
      StepRaises(p[pc], ctx, m, |p|);
      var cost := GasCost(p[pc].op);
      if cost.Some? && cost.value <= gas {
        var r := Step(p[pc], ctx, m, |p|);
        if r.signal.Success? && !p[pc].op.HALT? {
          GoingOnCosts(p[pc], ctx, m, |p|);
          NothingElseRaises(p, ctx, r.m, NextPc(pc, r.signal.value), gas - cost.value);
        }
      }
    }
  }

  predicate RaisedByTheLoop(e: UvmError) {
    e.OutOfGas? || e.ExecutionReverted?
  }

  predicate LoopOnly(signal: Signal) {
    signal.Failure? && signal.error.Error? && RaisedByTheLoop(signal.error.error)
  }

  lemma WalletRaises(op: Opcode, operands: seq<Operand>, ctx: Context, m: Memory)
    requires IsWallet(op) && |operands| == 2
    ensures !LoopOnly(StepWallet(op, operands, ctx, m).signal)
  {
    hide Normalize;
  }

  lemma KeyedRaises(op: Opcode, operand: Operand, ctx: Context, m: Memory)
    requires IsKeyed(op)
    ensures !LoopOnly(StepKeyed(op, operand, ctx, m).signal)
  {
    hide Normalize;
  }

  lemma BinaryRaises(op: Opcode, m: Memory)
    requires IsBinary(op)
    ensures !LoopOnly(StepBinary(op, m).signal)
  {
    hide Normalize, Xor;
  }

  lemma TransferRaises(op: Opcode, operands: seq<Operand>, ctx: Context, m: Memory)
    requires |operands| == 3
    ensures !LoopOnly(StepTransfer(op, operands, ctx, m).signal)
  {
    hide Booked, Bal, MaySpend;
  }

  lemma StackRaises(op: Opcode, operands: seq<Operand>, ctx: Context, m: Memory, n: nat)
    requires |operands| == OperandCount(op)
    ensures IsStack(op) ==> !LoopOnly(StepStack(op, operands, ctx, m).signal)
    ensures IsControl(op) ==> !LoopOnly(StepControl(op, operands, m, n).signal)
  {
    hide Normalize;
  }

  lemma StepRaises(ins: Instruction, ctx: Context, m: Memory, n: nat)
    ensures !LoopOnly(Step(ins, ctx, m, n).signal)
  {
    hide StepBinary, StepStack, StepKeyed, StepWallet, StepControl, StepTransfer;
    var op, operands := ins.op, ins.operands;
    if !op.Unknown? && |operands| == OperandCount(op) {
      if IsBinary(op) {
        BinaryRaises(op, m);
      } else if IsStack(op) || IsControl(op) {
        StackRaises(op, operands, ctx, m, n);
      } else if IsKeyed(op) {
        KeyedRaises(op, operands[0], ctx, m);
      } else if IsWallet(op) {
        WalletRaises(op, operands, ctx, m);
      } else {
        TransferRaises(op, operands, ctx, m);
      }
    }
  }
}

/** The coinflip as it is deployed: a list of opcodes with texts and numbers, which the machine reads
    before it runs them. */
module CoinflipText {
  import opened Base
  import opened Uvm
  import opened UvmRules
  import opened UvmTheorems
  import opened Coinflip
  import T = Assembler

  function ValueOf(o: Operand): T.Value {
    match o
    case Word(n) => T.Number(n)
    case Key(s) => T.Text(s)
    case Other => T.Compound
  }

  function Written(ins: Instruction): T.Assembled {
    T.Assembled(ins.op, seq(|ins.operands|, i requires 0 <= i < |ins.operands| => ValueOf(ins.operands[i])))
  }

  // What the app deploys for a game.
  function Deployed(g: Game): (program: seq<T.Assembled>)
    ensures |program| == LENGTH
  {
    seq(LENGTH, pc requires 0 <= pc < LENGTH => Written(Code(g, pc)))
  }

  predicate PlainText(r: T.Reader, s: string) {
    T.Plain(r, T.Text(s))
  }

  // The names the program always uses are no numbers.
  predicate PlainNames(r: T.Reader) {
    PlainText(r, SETTLED) && PlainText(r, A) && PlainText(r, B) && PlainText(r, DEADLINE) && PlainText(r, PAYOUT) && PlainText(r, CONTRACT_SELF)
  }

  // Neither are the texts of the game.
  predicate PlainGame(r: T.Reader, g: Game) {
    PlainText(r, g.one) && PlainText(r, g.two) && PlainText(r, g.request)
  }

  // ---- What the machine reads -------------------------------------------------------------

  predicate UsesTextsOf(g: Game, ins: Instruction) {
    forall i :: 0 <= i < |ins.operands| ==>
      ins.operands[i].Word?
      || (ins.operands[i].Key? && ins.operands[i].s in [SETTLED, A, B, DEADLINE, PAYOUT, CONTRACT_SELF, g.one, g.two, g.request])
  }

  lemma CodeUsesTexts(g: Game, pc: nat)
    requires pc < LENGTH
    ensures UsesTextsOf(g, Code(g, pc))
  {
  }

  lemma PlainIsRead(r: T.Reader, g: Game, ins: Instruction)
    requires PlainNames(r) && PlainGame(r, g) && UsesTextsOf(g, ins)
    ensures T.LoadedOperands(r, Written(ins).operands) == ins.operands
  {
    hide T.Plain, T.ParseOperand;
    forall i | 0 <= i < |ins.operands|
      ensures T.ToOperand(T.ParseOperand(r, ValueOf(ins.operands[i]))) == ins.operands[i]
    {
      if ins.operands[i].Key? {
        assert PlainText(r, ins.operands[i].s);
        T.OnlyPlainConstantsAreStable(r, T.Text(ins.operands[i].s));
      } else {
        T.NumbersStay(r, ins.operands[i].n);
      }
    }
  }

  // The machine reads the deployed program as the one that is meant exactly when the wallets and
  // the request are plain text.
  lemma ReadAsMeant(r: T.Reader, g: Game)
    requires PlainNames(r)
    ensures T.Loaded(r, Deployed(g)) == CoinflipProgram(g) <==> PlainGame(r, g)
  {
    hide T.Plain, T.ParseOperand, UsesTextsOf, T.LoadedOperands, Written;
    var p := T.Loaded(r, Deployed(g));
    if PlainGame(r, g) {
      forall pc | 0 <= pc < LENGTH
        ensures p[pc] == CoinflipProgram(g)[pc]
      {
        CodeUsesTexts(g, pc);
        PlainIsRead(r, g, Code(g, pc));
        WrittenOpcode(Code(g, pc));
      }
    } else if p == CoinflipProgram(g) {
      assert p[2] == Code(g, 2) && p[4] == Code(g, 4);
      MeansPlain(r, Code(g, 2), 0, g.one);
      MeansPlain(r, Code(g, 2), 1, g.request);
      MeansPlain(r, Code(g, 4), 0, g.two);
    }
  }

  lemma WrittenOpcode(ins: Instruction)
    ensures Written(ins).op == ins.op && |Written(ins).operands| == |ins.operands|
  {
  }

  lemma MeansPlain(r: T.Reader, ins: Instruction, i: nat, s: string)
    requires T.LoadedOperands(r, Written(ins).operands) == ins.operands && i < |ins.operands| && ins.operands[i] == Key(s)
    ensures PlainText(r, s)
  {
    hide T.Plain;
    T.OnlyPlainConstantsAreStable(r, T.Text(s));
    assert T.LoadedOperands(r, Written(ins).operands)[i] == T.ToOperand(T.ParseOperand(r, T.Text(s)));
    ReadAsKey(r, s);
  }

  lemma ReadAsKey(r: T.Reader, s: string)
    requires T.ToOperand(T.ParseOperand(r, T.Text(s))) == Key(s)
    ensures T.ParseOperand(r, T.Text(s)) == T.Text(s)
  {
  }

  // ---- What the deployed program does -----------------------------------------------------

  // The deployed game is played as it is meant when its texts are plain.
  lemma DeployedVerdict(r: T.Reader, ctx: Context, g: Game, gasLimit: nat, storage: map<string, int>, balances: map<string, real>)
    requires PlainNames(r) && PlainGame(r, g) && Proper(g, ctx.contractAddress) && NonNegative(balances)
    ensures var e := Execute(Some(T.Loaded(r, Deployed(g))), ctx, gasLimit, storage, balances);
            var v := Judge(ctx, g, storage);
            var words := InitialMemory(storage, balances).storage;
            && e.success == (Payable(ctx, g, balances, v) && gasLimit >= Gas(g, v))
            && (e.success ==> e.gasUsed == Gas(g, v) && e.storage == StorageAfter(v, words) && e.balanceChanges == ChangesAfter(g, v))
  {
    hide Execute, Judge, Payable, Gas, StorageAfter, ChangesAfter, CoinflipProgram, Deployed, T.Loaded;
    ReadAsMeant(r, g);
    VerdictIsCarriedOut(ctx, g, gasLimit, storage, balances);
  }

  // A wallet or a request that reads as a number keeps the game from ever being played: no run on
  // unsettled storage succeeds, and none moves anything.
  lemma NumericTextIsNeverPlayed(r: T.Reader, ctx: Context, g: Game, gasLimit: nat, storage: map<string, int>, balances: map<string, real>)
    requires PlainNames(r) && !SettledIn(storage)
    requires T.Reading(r, g.one).Some? || T.Reading(r, g.two).Some? || T.Reading(r, g.request).Some?
    ensures var e := Execute(Some(T.Loaded(r, Deployed(g))), ctx, gasLimit, storage, balances);
            !e.success && e.balanceChanges == map[] && e.transfers == []
  {
    hide Run, Deployed, T.Loaded, T.Reading, Normalize;
    var p, m := T.Loaded(r, Deployed(g)), InitialMemory(storage, balances);
    WordFacts(Get(storage, SETTLED, 0));
    WordFacts(0);
    TrapsEarly(r, ctx, g, m);
    GasLimitIndependence(Some(p), ctx, 100, gasLimit, storage, balances);
    assert NonZero(map[]) == map[];
  }

  // Instructions 0 to 4 as they are read.
  lemma FirstInstructions(r: T.Reader, g: Game)
    requires PlainNames(r)
    ensures var p := T.Loaded(r, Deployed(g));
            && |p| == LENGTH && p[0] == Instruction(LOAD, [Key(SETTLED)]) && p[1] == Instruction(JUMPI, [Word(51)])
            && p[2] == Instruction(HAS_REVEAL, [Read(r, g.one), Read(r, g.request)]) && p[3] == Instruction(MEM_STORE, [Key(A)])
            && p[4] == Instruction(HAS_REVEAL, [Read(r, g.two), Read(r, g.request)])
  {
    hide T.ParseOperand, T.Plain;
    T.OnlyPlainConstantsAreStable(r, T.Text(SETTLED));
    T.OnlyPlainConstantsAreStable(r, T.Text(A));
    T.NumbersStay(r, 51);
    var p := T.Loaded(r, Deployed(g));
    assert T.ParseOperand(r, T.Text(SETTLED)) == T.Text(SETTLED) && T.ParseOperand(r, T.Text(A)) == T.Text(A);
    assert p[0].operands == [Key(SETTLED)] && p[1].operands == [Word(51)] && p[3].operands == [Key(A)];
    assert p[2].operands == [Read(r, g.one), Read(r, g.request)] && p[4].operands == [Read(r, g.two), Read(r, g.request)];
  }

  function Read(r: T.Reader, s: string): Operand {
    T.ToOperand(T.ParseOperand(r, T.Text(s)))
  }

  lemma ReadIsWord(r: T.Reader, s: string)
    ensures Read(r, s).Word? <==> T.Reading(r, s).Some?
    ensures Read(r, s).Key? <==> T.Reading(r, s).None?
  {
  }

  lemma TrapsEarly(r: T.Reader, ctx: Context, g: Game, m: Memory)
    requires PlainNames(r) && m.stack == [] && Get(m.storage, SETTLED, 0) == 0 && m.changes == map[] && m.transfers == []
    requires T.Reading(r, g.one).Some? || T.Reading(r, g.two).Some? || T.Reading(r, g.request).Some?
    ensures var f := Run(T.Loaded(r, Deployed(g)), ctx, m, 0, 100);
            f.ending.Trapping? && f.m.changes == map[] && f.m.transfers == []
  {
    hide Run, Deployed, T.Loaded, T.Reading, Read, Step;
    var p := T.Loaded(r, Deployed(g));
    FirstInstructions(r, g);
    ReadIsWord(r, g.one);
    ReadIsWord(r, g.two);
    ReadIsWord(r, g.request);
    TestStorage(p, ctx, m, 0, 100, SETTLED, 51);
    TrapsAtATest(p, ctx, m, 70, Read(r, g.one), Read(r, g.two), Read(r, g.request));
  }

  lemma TrapsAtATest(p: Program, ctx: Context, m: Memory, gas: nat, one: Operand, two: Operand, request: Operand)
    requires |p| == LENGTH && p[2] == Instruction(HAS_REVEAL, [one, request]) && p[3] == Instruction(MEM_STORE, [Key(A)])
    requires p[4] == Instruction(HAS_REVEAL, [two, request]) && gas >= 25
    requires (one.Word? || two.Word? || request.Word?) && m.stack == [] && m.changes == map[] && m.transfers == []
    ensures var f := Run(p, ctx, m, 2, gas); f.ending.Trapping? && f.m.changes == map[] && f.m.transfers == []
  {
    hide Run;
    var first := Step(p[2], ctx, m, LENGTH);
    TestOf(ctx, m, one, request, LENGTH);
    if first.signal.Failure? {
      StopsHere(p, ctx, m, 2, gas);
    } else {
      Advance(p, ctx, m, 2, gas, first.m, None);
      var m' := MemStore(p, ctx, first.m, 3, gas - 10, A);
      TestOf(ctx, m', two, request, LENGTH);
      StopsHere(p, ctx, m', 4, gas - 15);
    }
  }

  lemma TestOf(ctx: Context, m: Memory, wallet: Operand, request: Operand, n: nat)
    requires m.stack == []
    ensures var s := Step(Instruction(HAS_REVEAL, [wallet, request]), ctx, m, n);
            && s.m.changes == m.changes && s.m.transfers == m.transfers
            && if wallet.Word? || request.Word? then s.signal.Failure?
               else s.signal.Failure? || (s.signal == CONTINUE && |s.m.stack| == 1)
  {
    hide StepBinary, StepStack, StepKeyed, StepControl, StepTransfer;
  }

  lemma StopsHere(p: Program, ctx: Context, m: Memory, pc: nat, gas: nat)
    requires pc < |p| && GasCost(p[pc].op).Some? && GasCost(p[pc].op).value <= gas && Step(p[pc], ctx, m, |p|).signal.Failure?
    ensures Run(p, ctx, m, pc, gas).ending.Trapping? && Run(p, ctx, m, pc, gas).m == Step(p[pc], ctx, m, |p|).m
  {
    hide Step;
  }
}

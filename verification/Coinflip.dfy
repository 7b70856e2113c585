/** The coinflip program the desktop app deploys, and its exact behaviour for every game,
    chain state and gas limit. */
module Coinflip {
  import opened Base
  import opened Uvm
  import opened UvmRules
  import opened UvmTheorems

  const SETTLED: string := "settled"
  const A: string := "a_revealed"
  const B: string := "b_revealed"
  const DEADLINE: string := "reveal_deadline"
  const PAYOUT: string := "coinflip:payout"

  datatype Game = Game(one: string, two: string, amount: int, request: string)

  // Two different wallets other than the contract, and a positive stake.
  predicate Proper(g: Game, contractAddress: string) {
    && g.one != g.two && g.one != "" && g.two != "" && g.request != ""
    && g.one != CONTRACT_SELF && g.two != CONTRACT_SELF
    && g.one != contractAddress && g.two != contractAddress
    && 0 < g.amount && 2 * g.amount < WORD_MODULUS
  }

  const LENGTH: nat := 52

  function Code(g: Game, pc: nat): Instruction {
    match pc
    case 0 => Instruction(LOAD, [Key(SETTLED)])
    case 1 => Instruction(JUMPI, [Word(51)])
    case 2 => Instruction(HAS_REVEAL, [Key(g.one), Key(g.request)])
    case 3 => Instruction(MEM_STORE, [Key(A)])
    case 4 => Instruction(HAS_REVEAL, [Key(g.two), Key(g.request)])
    case 5 => Instruction(MEM_STORE, [Key(B)])
    case 6 => Instruction(MEM_LOAD, [Key(A)])
    case 7 => Instruction(MEM_LOAD, [Key(B)])
    case 8 => Instruction(AND, [])
    case 9 => Instruction(JUMPI, [Word(32)])
    case 10 => Instruction(BLOCK_HEIGHT, [])
    case 11 => Instruction(READ_METADATA, [Key(DEADLINE)])
    case 12 => Instruction(GT, [])
    case 13 => Instruction(JUMPI, [Word(15)])
    case 14 => Instruction(HALT, [])
    case 15 => Instruction(MEM_LOAD, [Key(A)])
    case 16 => Instruction(JUMPI, [Word(22)])
    case 17 => Instruction(MEM_LOAD, [Key(B)])
    case 18 => Instruction(JUMPI, [Word(27)])
    case 19 => Instruction(PUSH, [Word(1)])
    case 20 => Instruction(STORE, [Key(SETTLED)])
    case 21 => Instruction(HALT, [])
    case 22 => Instruction(PUSH, [Word(1)])
    case 23 => Instruction(STORE, [Key(SETTLED)])
    case 24 => Instruction(PUSH, [Word(g.amount)])
    case 25 => Instruction(TRANSFER_FROM, [Key(g.two), Key(g.one), Key(g.request)])
    case 26 => Instruction(HALT, [])
    case 27 => Instruction(PUSH, [Word(1)])
    case 28 => Instruction(STORE, [Key(SETTLED)])
    case 29 => Instruction(PUSH, [Word(g.amount)])
    case 30 => Instruction(TRANSFER_FROM, [Key(g.one), Key(g.two), Key(g.request)])
    case 31 => Instruction(HALT, [])
    case 32 => Instruction(PUSH, [Word(1)])
    case 33 => Instruction(STORE, [Key(SETTLED)])
    case 34 => Instruction(PUSH, [Word(g.amount)])
    case 35 => Instruction(TRANSFER_FROM, [Key(g.one), Key(CONTRACT_SELF), Key(g.request)])
    case 36 => Instruction(PUSH, [Word(g.amount)])
    case 37 => Instruction(TRANSFER_FROM, [Key(g.two), Key(CONTRACT_SELF), Key(g.request)])
    case 38 => Instruction(READ_REVEAL, [Key(g.one), Key(g.request)])
    case 39 => Instruction(READ_REVEAL, [Key(g.two), Key(g.request)])
    case 40 => Instruction(XOR, [])
    case 41 => Instruction(SHA256, [])
    case 42 => Instruction(PUSH, [Word(2)])
    case 43 => Instruction(MOD, [])
    case 44 => Instruction(JUMPI, [Word(48)])
    case 45 => Instruction(PUSH, [Word(2 * g.amount)])
    case 46 => Instruction(TRANSFER_FROM, [Key(CONTRACT_SELF), Key(g.one), Key(PAYOUT)])
    case 47 => Instruction(HALT, [])
    case 48 => Instruction(PUSH, [Word(2 * g.amount)])
    case 49 => Instruction(TRANSFER_FROM, [Key(CONTRACT_SELF), Key(g.two), Key(PAYOUT)])
    case _ => Instruction(HALT, [])
  }

  function CoinflipProgram(g: Game): Program {
    seq(LENGTH, pc requires 0 <= pc < LENGTH => Code(g, pc))
  }

  predicate Revealed(ctx: Context, g: Game, wallet: string) {
    wallet in Get(ctx.revealed, g.request, map[])
  }

  // The wallet the two revealed seeds pick.
  function FlipWinner(ctx: Context, g: Game): string
    requires Revealed(ctx, g, g.one) && Revealed(ctx, g, g.two)
  {
    if Normalize(ctx.sha256(Normalize(Mixed(ctx, g)))) % 2 != 0 then g.two else g.one
  }

  function Mixed(ctx: Context, g: Game): int
    requires Revealed(ctx, g, g.one) && Revealed(ctx, g, g.two)
  {
    Xor(Normalize(ctx.revealed[g.request][g.one].seed), Normalize(ctx.revealed[g.request][g.two].seed))
  }

  function Opponent(g: Game, wallet: string): string {
    if wallet == g.one then g.two else g.one
  }

  datatype Verdict =
    | Undecidable                // no readable deadline in the metadata
    | AlreadySettled | Waiting   // nothing happens
    | Expired                    // nobody revealed in time: settled without payment
    | Forfeit(winner: string)    // only the winner revealed in time
    | Flip(winner: string)

  function Judge(ctx: Context, g: Game, storage: map<string, int>): Verdict {
    var deadline := WordOf(ctx.metadata, DEADLINE);
    if Normalize(Get(storage, SETTLED, 0)) != 0 then AlreadySettled
    else if Revealed(ctx, g, g.one) && Revealed(ctx, g, g.two) then Flip(FlipWinner(ctx, g))
    else if deadline.None? then Undecidable
    else if Normalize(ctx.blockHeight) <= deadline.value then Waiting
    else if Revealed(ctx, g, g.one) then Forfeit(g.one)
    else if Revealed(ctx, g, g.two) then Forfeit(g.two)
    else Expired
  }

  function Gas(g: Game, v: Verdict): nat {
    match v
    case Undecidable => 0
    case AlreadySettled => 30
    case Waiting => 93
    case Expired => 210
    case Forfeit(w) => if w == g.one then 253 else 261
    case Flip(_) => 422
  }

  predicate CanStake(ctx: Context, g: Game, balances: map<string, real>, wallet: string) {
    MaySpend(ctx, wallet, g.request) && Bal(balances, wallet) >= g.amount as real
  }

  // Whether the verdict can be carried out with the given funds.
  predicate Payable(ctx: Context, g: Game, balances: map<string, real>, v: Verdict) {
    match v
    case Undecidable => false
    case AlreadySettled | Waiting | Expired => true
    case Forfeit(w) => CanStake(ctx, g, balances, Opponent(g, w))
    case Flip(_) => CanStake(ctx, g, balances, g.one) && CanStake(ctx, g, balances, g.two)
  }

  function StorageAfter(v: Verdict, storage: map<string, int>): map<string, int> {
    if v.AlreadySettled? || v.Waiting? then storage else storage[SETTLED := 1]
  }

  // The stake moves from the loser to the winner; the contract keeps nothing.
  function ChangesAfter(g: Game, v: Verdict): map<string, real> {
    if v.Forfeit? || v.Flip?
    then map[v.winner := g.amount as real, Opponent(g, v.winner) := -(g.amount as real)]
    else map[]
  }

  lemma At(g: Game, pc: nat)
    requires pc < LENGTH
    ensures |CoinflipProgram(g)| == LENGTH && CoinflipProgram(g)[pc] == Code(g, pc)
  {
  }

  // The stack is empty, nothing has moved yet and the reveals are noted.
  ghost predicate Noted(ctx: Context, g: Game, m: Memory, balances: map<string, real>) {
    && m.stack == [] && m.balances == balances && m.changes == map[] && m.transfers == []
    && A in m.scratch && B in m.scratch
    && m.scratch[A] == Flag(Revealed(ctx, g, g.one)) && m.scratch[B] == Flag(Revealed(ctx, g, g.two))
  }

  // Instructions 2 to 9: note both reveals, go to 32 when both are there.
  lemma NoteBoth(ctx: Context, g: Game, m: Memory, gas: nat) returns (m': Memory)
    requires gas >= 44 && Proper(g, ctx.contractAddress) && m.stack == []
    requires m.changes == map[] && m.transfers == []
    ensures Noted(ctx, g, m', m.balances) && m'.storage == m.storage
    ensures Run(CoinflipProgram(g), ctx, m, 2, gas) == Run(CoinflipProgram(g), ctx, m', 6, gas - 30)
  {
    hide Run, Step, CoinflipProgram;
    var p := CoinflipProgram(g);
    At(g, 2); At(g, 3); At(g, 4); At(g, 5);
    var m1 := NoteReveal(p, ctx, m, 2, gas, g.one, g.request, A);
    m' := NoteReveal(p, ctx, m1, 4, gas - 15, g.two, g.request, B);
  }

  lemma LoadBoth(ctx: Context, g: Game, m: Memory, gas: nat, balances: map<string, real>)
    requires gas >= 6 && Noted(ctx, g, m, balances)
    ensures Run(CoinflipProgram(g), ctx, m, 6, gas)
         == Run(CoinflipProgram(g), ctx, m.(stack := [m.scratch[A], m.scratch[B]]), 8, gas - 6)
  {
    hide Run, Step, CoinflipProgram, Revealed, Normalize;
    var p := CoinflipProgram(g);
    At(g, 6); At(g, 7);
    FlagFacts(Revealed(ctx, g, g.one));
    FlagFacts(Revealed(ctx, g, g.two));
    var m1 := MemLoad(p, ctx, m, 6, gas, A);
    var m2 := MemLoad(p, ctx, m1, 7, gas - 3, B);
    assert m2 == m.(stack := [m.scratch[A], m.scratch[B]]);
  }

  lemma TestBoth(ctx: Context, g: Game, m: Memory, gas: nat, balances: map<string, real>)
    requires gas >= 14 && Noted(ctx, g, m, balances)
    ensures var both := Revealed(ctx, g, g.one) && Revealed(ctx, g, g.two);
            Run(CoinflipProgram(g), ctx, m, 6, gas) == Run(CoinflipProgram(g), ctx, m, if both then 32 else 10, gas - 14)
  {
    hide Run, Step, CoinflipProgram, Revealed, Normalize;
    var both := Revealed(ctx, g, g.one) && Revealed(ctx, g, g.two);
    At(g, 8); At(g, 9);
    LoadBoth(ctx, g, m, gas, balances);
    var m1 := m.(stack := [m.scratch[A], m.scratch[B]]);
    CompareAndJump(CoinflipProgram(g), ctx, m1, 8, gas - 6, AND, both, 32);
    assert m1.(stack := []) == m;
  }

  lemma ReadClock(ctx: Context, g: Game, m: Memory, gas: nat, height: int, deadline: int)
    requires gas >= 12 && m.stack == []
    requires height == Normalize(ctx.blockHeight) && WordOf(ctx.metadata, DEADLINE) == Some(deadline)
    ensures Run(CoinflipProgram(g), ctx, m, 10, gas)
         == Run(CoinflipProgram(g), ctx, m.(stack := [height, deadline]), 12, gas - 12)
  {
    hide Run, Step, CoinflipProgram, Normalize, WordOf;
    var p := CoinflipProgram(g);
    At(g, 10); At(g, 11);
    var m1 := BlockHeight(p, ctx, m, 10, gas);
    var m2 := ReadMetadata(p, ctx, m1, 11, gas - 2, DEADLINE);
    assert m2 == m.(stack := [height, deadline]);
  }

  // Instructions 10 to 14: before the deadline nothing happens.
  lemma TestDeadline(ctx: Context, g: Game, m: Memory, gas: nat, height: int, deadline: int)
    requires gas >= 19 && m.stack == []
    requires height == Normalize(ctx.blockHeight) && WordOf(ctx.metadata, DEADLINE) == Some(deadline)
    ensures Run(CoinflipProgram(g), ctx, m, 10, gas)
         == Run(CoinflipProgram(g), ctx, m, if height > deadline then 15 else 14, gas - 19)
  {
    hide Run, Step, CoinflipProgram, Normalize, WordOf;
    At(g, 12); At(g, 13);
    ReadClock(ctx, g, m, gas, height, deadline);
    var m1 := m.(stack := [height, deadline]);
    CompareAndJump(CoinflipProgram(g), ctx, m1, 12, gas - 12, GT, height > deadline, 15);
    assert m1.(stack := []) == m;
  }

  lemma NoDeadline(ctx: Context, g: Game, m: Memory, gas: nat)
    requires gas >= 12 && m.stack == [] && WordOf(ctx.metadata, DEADLINE).None?
    ensures Run(CoinflipProgram(g), ctx, m, 10, gas).ending.Trapping?
  {
    hide Run, CoinflipProgram, Normalize;
    var p := CoinflipProgram(g);
    At(g, 10); At(g, 11);
    var m1 := BlockHeight(p, ctx, m, 10, gas);
    Fault(p, ctx, m1, 11, gas - 2);
  }

  // Instructions 22 to 26 and 27 to 31: the wallet that did not reveal pays the one that did.
  lemma PayForfeit(ctx: Context, g: Game, m: Memory, pc: nat, gas: nat, winner: string, balances: map<string, real>)
    requires gas >= 152 && Proper(g, ctx.contractAddress) && Noted(ctx, g, m, balances)
    requires (pc == 22 && winner == g.one) || (pc == 27 && winner == g.two)
    ensures var f := Run(CoinflipProgram(g), ctx, m, pc, gas);
            if CanStake(ctx, g, balances, Opponent(g, winner))
            then && f.ending.Completed? && f.gas == gas - 152
                 && f.m == Booked(m.(storage := m.storage[SETTLED := 1]), Transfer(Opponent(g, winner), winner, g.amount, g.request))
            else f.ending.Trapping?
  {
    hide Run, Step, CoinflipProgram, MaySpend, Bal, Booked;
    var p := CoinflipProgram(g);
    At(g, pc); At(g, pc + 1); At(g, pc + 2); At(g, pc + 3); At(g, pc + 4);
    var m1 := PushStore(p, ctx, m, pc, gas, 1, SETTLED);
    var m2 := PushPay(p, ctx, m1, pc + 2, gas - 101, g.amount, Opponent(g, winner), winner, g.request);
    if CanStake(ctx, g, balances, Opponent(g, winner)) {
      Stop(p, ctx, m2, pc + 4, gas - 152);
    }
  }

  function Stake(ctx: Context, g: Game, wallet: string): Transfer {
    Transfer(wallet, ctx.contractAddress, g.amount, g.request)
  }

  function Prize(ctx: Context, g: Game, winner: string): Transfer {
    Transfer(ctx.contractAddress, winner, 2 * g.amount, PAYOUT)
  }

  function Staked(ctx: Context, g: Game, m: Memory): Memory {
    Booked(Booked(m.(storage := m.storage[SETTLED := 1]), Stake(ctx, g, g.one)), Stake(ctx, g, g.two))
  }

  lemma TakeFirstStake(ctx: Context, g: Game, m: Memory, gas: nat, balances: map<string, real>)
    requires gas >= 152 && Proper(g, ctx.contractAddress) && Noted(ctx, g, m, balances)
    ensures var f := Run(CoinflipProgram(g), ctx, m, 32, gas);
            if CanStake(ctx, g, balances, g.one)
            then f == Run(CoinflipProgram(g), ctx, Booked(m.(storage := m.storage[SETTLED := 1]), Stake(ctx, g, g.one)), 36, gas - 152)
            else f.ending.Trapping?
  {
    hide Run, Step, CoinflipProgram, MaySpend, Bal, Booked;
    MarkSettled(ctx, g, m, gas);
    At(g, 34); At(g, 35);
    var m' := PushPay(CoinflipProgram(g), ctx, m.(storage := m.storage[SETTLED := 1]), 34, gas - 101, g.amount, g.one, CONTRACT_SELF, g.request);
  }

  lemma MarkSettled(ctx: Context, g: Game, m: Memory, gas: nat)
    requires gas >= 101 && m.stack == []
    ensures Run(CoinflipProgram(g), ctx, m, 32, gas) == Run(CoinflipProgram(g), ctx, m.(storage := m.storage[SETTLED := 1]), 34, gas - 101)
  {
    hide Run, Step, CoinflipProgram;
    At(g, 32); At(g, 33);
    var m' := PushStore(CoinflipProgram(g), ctx, m, 32, gas, 1, SETTLED);
  }

  lemma TakeSecondStake(ctx: Context, g: Game, m: Memory, gas: nat)
    requires gas >= 51 && Proper(g, ctx.contractAddress) && m.stack == []
    ensures var f := Run(CoinflipProgram(g), ctx, m, 36, gas);
            if CanStake(ctx, g, m.balances, g.two)
            then f == Run(CoinflipProgram(g), ctx, Booked(m, Stake(ctx, g, g.two)), 38, gas - 51)
            else f.ending.Trapping?
  {
    hide Run, Step, CoinflipProgram, MaySpend, Bal, Booked;
    At(g, 36); At(g, 37);
    var m' := PushPay(CoinflipProgram(g), ctx, m, 36, gas, g.amount, g.two, CONTRACT_SELF, g.request);
  }

  // Instructions 32 to 37: both wallets pay their stake into the contract.
  lemma TakeStakes(ctx: Context, g: Game, m: Memory, gas: nat, balances: map<string, real>)
    requires gas >= 203 && Proper(g, ctx.contractAddress) && Noted(ctx, g, m, balances)
    ensures var f := Run(CoinflipProgram(g), ctx, m, 32, gas);
            if CanStake(ctx, g, balances, g.one) && CanStake(ctx, g, balances, g.two)
            then f == Run(CoinflipProgram(g), ctx, Staked(ctx, g, m), 38, gas - 203)
            else f.ending.Trapping?
  {
    hide Run, CoinflipProgram, Code, MaySpend, Bal, Booked;
    TakeFirstStake(ctx, g, m, gas, balances);
    var settled := m.(storage := m.storage[SETTLED := 1]);
    OthersUntouched(settled, Stake(ctx, g, g.one), g.two);
    TakeSecondStake(ctx, g, Booked(settled, Stake(ctx, g, g.one)), gas - 152);
  }

  lemma OthersUntouched(m: Memory, t: Transfer, account: string)
    requires account != t.source && account != t.receiver
    ensures Bal(Booked(m, t).balances, account) == Bal(m.balances, account) && Booked(m, t).stack == m.stack
  {
  }

  lemma ReadSeeds(ctx: Context, g: Game, m: Memory, gas: nat, one: int, two: int)
    requires gas >= 60 && m.stack == [] && Proper(g, ctx.contractAddress)
    requires Revealed(ctx, g, g.one) && Revealed(ctx, g, g.two)
    requires one == Normalize(ctx.revealed[g.request][g.one].seed) && two == Normalize(ctx.revealed[g.request][g.two].seed)
    ensures Run(CoinflipProgram(g), ctx, m, 38, gas) == Run(CoinflipProgram(g), ctx, m.(stack := [one, two]), 40, gas - 60)
  {
    hide Run, Step, CoinflipProgram, Normalize;
    var p := CoinflipProgram(g);
    At(g, 38); At(g, 39);
    var m1 := ReadReveal(p, ctx, m, 38, gas, g.one, g.request);
    var m2 := ReadReveal(p, ctx, m1, 39, gas - 30, g.two, g.request);
    assert m2 == m.(stack := [one, two]);
  }

  lemma HashSeeds(ctx: Context, g: Game, m: Memory, gas: nat, one: int, two: int)
    requires gas >= 23 && IsWord(one) && IsWord(two) && m.stack == [one, two]
    ensures Run(CoinflipProgram(g), ctx, m, 40, gas)
         == Run(CoinflipProgram(g), ctx, m.(stack := [Normalize(ctx.sha256(Normalize(Xor(one, two))))]), 42, gas - 23)
  {
    hide Run, Step, CoinflipProgram, Normalize;
    var p := CoinflipProgram(g);
    At(g, 40); At(g, 41);
    assert Top(Popped(m)) == one;
    var m1 := Binary(p, ctx, m, 40, gas, XOR, Xor(one, two));
    assert m1 == m.(stack := [Normalize(Xor(one, two))]);
    var m2 := Sha(p, ctx, m1, 41, gas - 3);
    assert m2 == m.(stack := [Normalize(ctx.sha256(Normalize(Xor(one, two))))]);
  }

  lemma ChooseSide(ctx: Context, g: Game, m: Memory, gas: nat, digest: int)
    requires gas >= 11 && IsWord(digest) && m.stack == [digest]
    ensures Run(CoinflipProgram(g), ctx, m, 42, gas)
         == Run(CoinflipProgram(g), ctx, m.(stack := []), if digest % 2 != 0 then 48 else 45, gas - 11)
  {
    hide Run, Step, CoinflipProgram, Normalize;
    var p := CoinflipProgram(g);
    At(g, 42); At(g, 43); At(g, 44);
    var m1 := Push(p, ctx, m, 42, gas, 2);
    assert m1 == m.(stack := [digest, 2]);
    FlagFacts(digest % 2 != 0);
    CompareAndJump(p, ctx, m1, 43, gas - 1, MOD, digest % 2 != 0, 48);
  }

  // Instructions 38 to 44: the revealed seeds pick the winner.
  lemma PickWinner(ctx: Context, g: Game, m: Memory, gas: nat)
    requires gas >= 94 && m.stack == [] && Proper(g, ctx.contractAddress)
    requires Revealed(ctx, g, g.one) && Revealed(ctx, g, g.two)
    ensures Run(CoinflipProgram(g), ctx, m, 38, gas)
         == Run(CoinflipProgram(g), ctx, m, if FlipWinner(ctx, g) == g.two then 48 else 45, gas - 94)
  {
    hide Run, CoinflipProgram, Normalize;
    var one := Normalize(ctx.revealed[g.request][g.one].seed);
    var two := Normalize(ctx.revealed[g.request][g.two].seed);
    WordFacts(ctx.revealed[g.request][g.one].seed);
    WordFacts(ctx.revealed[g.request][g.two].seed);
    var digest := Normalize(ctx.sha256(Normalize(Xor(one, two))));
    WordFacts(ctx.sha256(Normalize(Xor(one, two))));
    ReadSeeds(ctx, g, m, gas, one, two);
    HashSeeds(ctx, g, m.(stack := [one, two]), gas - 60, one, two);
    ChooseSide(ctx, g, m.(stack := [digest]), gas - 83, digest);
    assert m.(stack := []) == m;
  }

  // Instructions 45 to 50: the contract pays both stakes to the winner.
  lemma PayPrize(ctx: Context, g: Game, m: Memory, pc: nat, gas: nat, winner: string)
    requires gas >= 51 && m.stack == [] && Proper(g, ctx.contractAddress)
    requires (pc == 45 && winner == g.one) || (pc == 48 && winner == g.two)
    requires Bal(m.balances, ctx.contractAddress) >= (2 * g.amount) as real
    ensures Run(CoinflipProgram(g), ctx, m, pc, gas) == Final(Completed, Booked(m, Prize(ctx, g, winner)), pc + 2, gas - 51)
  {
    hide Run, Step, CoinflipProgram, Bal, Booked;
    var p := CoinflipProgram(g);
    At(g, pc); At(g, pc + 1); At(g, pc + 2);
    assert Code(g, pc) == Instruction(PUSH, [Word(2 * g.amount)])
        && Code(g, pc + 1) == Instruction(TRANSFER_FROM, [Key(CONTRACT_SELF), Key(winner), Key(PAYOUT)])
        && Code(g, pc + 2) == Instruction(HALT, []);
    hide Code;
    var m1 := PushPay(p, ctx, m, pc, gas, 2 * g.amount, CONTRACT_SELF, winner, PAYOUT);
    Stop(p, ctx, m1, pc + 2, gas - 51);
  }

  lemma StakedFunds(ctx: Context, g: Game, m: Memory, balances: map<string, real>)
    requires Proper(g, ctx.contractAddress) && Noted(ctx, g, m, balances) && Bal(balances, ctx.contractAddress) >= 0.0
    ensures var s := Staked(ctx, g, m);
            && s.stack == [] && s.storage == m.storage[SETTLED := 1]
            && Bal(s.balances, ctx.contractAddress) >= (2 * g.amount) as real
            && s.changes == map[g.one := -(g.amount as real), g.two := -(g.amount as real),
                                ctx.contractAddress := (2 * g.amount) as real]
  {
  }

  lemma FlipSettles(ctx: Context, g: Game, m: Memory, winner: string, balances: map<string, real>)
    requires Proper(g, ctx.contractAddress) && Noted(ctx, g, m, balances) && Bal(balances, ctx.contractAddress) >= 0.0
    requires winner == g.one || winner == g.two
    ensures NonZero(Booked(Staked(ctx, g, m), Prize(ctx, g, winner)).changes) == ChangesAfter(g, Flip(winner))
  {
    hide Staked;
    StakedFunds(ctx, g, m, balances);
  }

  // How a run ended: the verdict carried out with the gas it costs, or a fault.
  ghost predicate Decided(g: Game, ctx: Context, v: Verdict, balances: map<string, real>, storage: map<string, int>, gas: nat, f: Final) {
    if Payable(ctx, g, balances, v) && Gas(g, v) <= gas
    then && f.ending.Completed? && f.gas == gas - Gas(g, v)
         && f.m.storage == StorageAfter(v, storage) && NonZero(f.m.changes) == ChangesAfter(g, v)
    else f.ending.Trapping?
  }

  // From instruction 32: both wallets revealed.
  lemma FlipRun(ctx: Context, g: Game, m: Memory, balances: map<string, real>)
    requires Proper(g, ctx.contractAddress) && Noted(ctx, g, m, balances) && Bal(balances, ctx.contractAddress) >= 0.0
    requires Revealed(ctx, g, g.one) && Revealed(ctx, g, g.two)
    ensures Decided(g, ctx, Flip(FlipWinner(ctx, g)), balances, m.storage, 422, Run(CoinflipProgram(g), ctx, m, 32, 348))
  {
    hide Run, CoinflipProgram, Bal, Staked, Revealed, FlipWinner, CanStake;
    var winner := FlipWinner(ctx, g);
    TakeStakes(ctx, g, m, 348, balances);
    if CanStake(ctx, g, balances, g.one) && CanStake(ctx, g, balances, g.two) {
      StakedFunds(ctx, g, m, balances);
      PickWinner(ctx, g, Staked(ctx, g, m), 145);
      WinnerPlays(ctx, g);
      PayPrize(ctx, g, Staked(ctx, g, m), if winner == g.two then 48 else 45, 51, winner);
      FlipSettles(ctx, g, m, winner, balances);
    }
  }

  lemma WinnerPlays(ctx: Context, g: Game)
    requires Revealed(ctx, g, g.one) && Revealed(ctx, g, g.two)
    ensures FlipWinner(ctx, g) == g.one || FlipWinner(ctx, g) == g.two
  {
  }

  lemma ForfeitSettles(ctx: Context, g: Game, m: Memory, winner: string)
    requires Proper(g, ctx.contractAddress) && m.changes == map[] && (winner == g.one || winner == g.two)
    ensures var m' := Booked(m, Transfer(Opponent(g, winner), winner, g.amount, g.request));
            NonZero(m'.changes) == ChangesAfter(g, Forfeit(winner)) && m'.storage == m.storage
  {
  }

  // From instruction 22 or 27: one wallet forfeits.
  lemma ForfeitRun(ctx: Context, g: Game, m: Memory, winner: string, balances: map<string, real>)
    requires Proper(g, ctx.contractAddress) && Noted(ctx, g, m, balances)
    requires winner == g.one || winner == g.two
    ensures var first := winner == g.one;
            Decided(g, ctx, Forfeit(winner), balances, m.storage, 422,
                    Run(CoinflipProgram(g), ctx, m, if first then 22 else 27, if first then 321 else 313))
  {
    hide Run, CoinflipProgram, Bal, CanStake, Booked;
    var first := winner == g.one;
    PayForfeit(ctx, g, m, if first then 22 else 27, if first then 321 else 313, winner, balances);
    ForfeitSettles(ctx, g, m.(storage := m.storage[SETTLED := 1]), winner);
  }

  // From instruction 19: nobody revealed.
  lemma ExpiredRun(ctx: Context, g: Game, m: Memory, balances: map<string, real>)
    requires Noted(ctx, g, m, balances)
    ensures Decided(g, ctx, Expired, balances, m.storage, 422, Run(CoinflipProgram(g), ctx, m, 19, 313))
  {
    hide Run, CoinflipProgram, Revealed;
    var p := CoinflipProgram(g);
    At(g, 19); At(g, 20); At(g, 21);
    var m1 := PushStore(p, ctx, m, 19, 313, 1, SETTLED);
    Stop(p, ctx, m1, 21, 212);
  }

  // From instruction 15: the deadline has passed and at most one wallet revealed.
  lemma LateRun(ctx: Context, g: Game, m: Memory, balances: map<string, real>)
    requires Proper(g, ctx.contractAddress) && Noted(ctx, g, m, balances)
    requires !(Revealed(ctx, g, g.one) && Revealed(ctx, g, g.two))
    ensures var v := if Revealed(ctx, g, g.one) then Forfeit(g.one) else if Revealed(ctx, g, g.two) then Forfeit(g.two) else Expired;
            Decided(g, ctx, v, balances, m.storage, 422, Run(CoinflipProgram(g), ctx, m, 15, 329))
  {
    hide Run, CoinflipProgram, Revealed;
    var p := CoinflipProgram(g);
    At(g, 15); At(g, 16); At(g, 17); At(g, 18);
    TestCell(p, ctx, m, 15, 329, A, 22);
    if Revealed(ctx, g, g.one) {
      hide Decided;
      ForfeitRun(ctx, g, m, g.one, balances);
    } else {
      TestCell(p, ctx, m, 17, 321, B, 27);
      if Revealed(ctx, g, g.two) {
        hide Decided;
        ForfeitRun(ctx, g, m, g.two, balances);
      } else {
        hide Decided;
        ExpiredRun(ctx, g, m, balances);
      }
    }
  }

  // With gas for the longest path, every verdict is carried out.
  lemma AmpleRun(ctx: Context, g: Game, m: Memory, balances: map<string, real>)
    requires Proper(g, ctx.contractAddress) && NonNegative(balances)
    requires m.stack == [] && m.changes == map[] && m.transfers == [] && m.balances == balances
    requires IsWord(Get(m.storage, SETTLED, 0))
    ensures Decided(g, ctx, Judge(ctx, g, m.storage), balances, m.storage, 422, Run(CoinflipProgram(g), ctx, m, 0, 422))
  {
    hide Run, CoinflipProgram, Normalize, WordOf, Step;
    var p := CoinflipProgram(g);
    WordFacts(Get(m.storage, SETTLED, 0));
    At(g, 0); At(g, 1); At(g, 51);
    TestStorage(p, ctx, m, 0, 422, SETTLED, 51);
    if Get(m.storage, SETTLED, 0) != 0 {
      Stop(p, ctx, m, 51, 392);
    } else {
      hide Decided;
      OpenRun(ctx, g, m, balances);
    }
  }

  // From instruction 2: the game is not settled.
  lemma OpenRun(ctx: Context, g: Game, m: Memory, balances: map<string, real>)
    requires Proper(g, ctx.contractAddress) && NonNegative(balances)
    requires m.stack == [] && m.changes == map[] && m.transfers == [] && m.balances == balances
    requires Normalize(Get(m.storage, SETTLED, 0)) == 0
    ensures Decided(g, ctx, Judge(ctx, g, m.storage), balances, m.storage, 422, Run(CoinflipProgram(g), ctx, m, 2, 392))
  {
    hide Run, CoinflipProgram, Normalize, WordOf, Code, Decided;
    var m1 := NoteBoth(ctx, g, m, 392);
    TestBoth(ctx, g, m1, 362, balances);
    if Revealed(ctx, g, g.one) && Revealed(ctx, g, g.two) {
      FlipRun(ctx, g, m1, balances);
    } else {
      WaitOrLate(ctx, g, m1, balances);
    }
  }

  // From instruction 10: at most one wallet revealed.
  lemma WaitOrLate(ctx: Context, g: Game, m: Memory, balances: map<string, real>)
    requires Proper(g, ctx.contractAddress) && Noted(ctx, g, m, balances)
    requires !(Revealed(ctx, g, g.one) && Revealed(ctx, g, g.two)) && Normalize(Get(m.storage, SETTLED, 0)) == 0
    ensures Decided(g, ctx, Judge(ctx, g, m.storage), balances, m.storage, 422, Run(CoinflipProgram(g), ctx, m, 10, 348))
  {
    hide Run, CoinflipProgram, Normalize, WordOf, Step;
    if WordOf(ctx.metadata, DEADLINE).None? {
      NoDeadline(ctx, g, m, 348);
    } else {
      TestDeadline(ctx, g, m, 348, Normalize(ctx.blockHeight), WordOf(ctx.metadata, DEADLINE).value);
      if Normalize(ctx.blockHeight) > WordOf(ctx.metadata, DEADLINE).value {
        hide Decided;
        LateRun(ctx, g, m, balances);
      } else {
        At(g, 14);
        Stop(CoinflipProgram(g), ctx, m, 14, 329);
      }
    }
  }

  // The program succeeds exactly when the verdict can be paid and there is gas for it. Then a
  // game already settled, or still waiting, changes nothing; an expired one is settled without
  // payment; otherwise exactly the stake moves from the loser to the winner.
  lemma VerdictIsCarriedOut(ctx: Context, g: Game, gasLimit: nat, storage: map<string, int>, balances: map<string, real>)
    requires Proper(g, ctx.contractAddress) && NonNegative(balances)
    ensures var e := Execute(Some(CoinflipProgram(g)), ctx, gasLimit, storage, balances);
            var v := Judge(ctx, g, storage);
            var words := InitialMemory(storage, balances).storage;
            && e.success == (Payable(ctx, g, balances, v) && gasLimit >= Gas(g, v))
            && (e.success ==> e.gasUsed == Gas(g, v) && e.storage == StorageAfter(v, words) && e.balanceChanges == ChangesAfter(g, v))
  {
    hide Run, CoinflipProgram, Normalize;
    var m := InitialMemory(storage, balances);
    WordFacts(Get(storage, SETTLED, 0));
    WordFacts(Get(m.storage, SETTLED, 0));
    WordFacts(0);
    AmpleRun(ctx, g, m, balances);
    GasLimitIndependence(Some(CoinflipProgram(g)), ctx, 422, gasLimit, storage, balances);
  }

  // ---- Many runs --------------------------------------------------------------------------

  predicate SettledIn(storage: map<string, int>) {
    Normalize(Get(storage, SETTLED, 0)) != 0
  }

  lemma SettledRun(ctx: Context, g: Game, m: Memory)
    requires m.stack == [] && IsWord(Get(m.storage, SETTLED, 0)) && Get(m.storage, SETTLED, 0) != 0
    ensures Run(CoinflipProgram(g), ctx, m, 0, 30) == Final(Completed, m, 51, 0)
  {
    hide Run, CoinflipProgram, Step;
    At(g, 0); At(g, 1); At(g, 51);
    TestStorage(CoinflipProgram(g), ctx, m, 0, 30, SETTLED, 51);
    Stop(CoinflipProgram(g), ctx, m, 51, 0);
  }

  // No run of a settled game, with whatever gas, context and balances, moves anything, and those
  // that succeed leave it settled.
  lemma SettledMovesNothing(ctx: Context, g: Game, gasLimit: nat, storage: map<string, int>, balances: map<string, real>)
    requires SettledIn(storage)
    ensures var e := Execute(Some(CoinflipProgram(g)), ctx, gasLimit, storage, balances);
            e.balanceChanges == map[] && e.transfers == [] && (e.success ==> SettledIn(e.storage))
  {
    hide Run, CoinflipProgram, Normalize;
    var m := InitialMemory(storage, balances);
    WordFacts(Get(storage, SETTLED, 0));
    WordFacts(Get(m.storage, SETTLED, 0));
    WordFacts(0);
    SettledRun(ctx, g, m);
    GasLimitIndependence(Some(CoinflipProgram(g)), ctx, 30, gasLimit, storage, balances);
  }

  // A run that moves money leaves the game settled.
  lemma PayingSettles(ctx: Context, g: Game, gasLimit: nat, storage: map<string, int>, balances: map<string, real>)
    requires Proper(g, ctx.contractAddress) && NonNegative(balances)
    ensures var e := Execute(Some(CoinflipProgram(g)), ctx, gasLimit, storage, balances);
            e.success && e.balanceChanges != map[] ==> SettledIn(e.storage)
  {
    hide Run, CoinflipProgram, Normalize;
    WordFacts(1);
    VerdictIsCarriedOut(ctx, g, gasLimit, storage, balances);
  }

  // One run of the game at some time: the context, the gas and the balances it meets.
  datatype Play = Play(ctx: Context, gasLimit: nat, balances: map<string, real>)

  function Outcome(g: Game, storage: map<string, int>, play: Play): Execution {
    Execute(Some(CoinflipProgram(g)), play.ctx, play.gasLimit, storage, play.balances)
  }

  // The game's storage after some runs; those that fail leave it alone.
  function StorageThen(g: Game, storage: map<string, int>, plays: seq<Play>): map<string, int> {
    if plays == [] then storage else
    var before := StorageThen(g, storage, plays[..|plays| - 1]);
    var e := Outcome(g, before, plays[|plays| - 1]);
    if e.success then e.storage else before
  }

  lemma {:induction false} SettledForGood(g: Game, storage: map<string, int>, plays: seq<Play>, n: nat)
    requires n <= |plays| && SettledIn(StorageThen(g, storage, plays[..n]))
    ensures SettledIn(StorageThen(g, storage, plays))
    decreases |plays|
  {
    hide Execute, SettledIn;
    if n < |plays| {
      var front := plays[..|plays| - 1];
      assert front[..n] == plays[..n];
      SettledForGood(g, storage, front, n);
      var last := plays[|plays| - 1];
      SettledMovesNothing(last.ctx, g, last.gasLimit, StorageThen(g, storage, front), last.balances);
    } else {
      assert plays[..n] == plays;
    }
  }

  // In any sequence of runs, at whatever times and on whatever chain states, at most one run of a
  // game moves money: once one has, no later one does.
  lemma NeverPaysTwice(g: Game, storage: map<string, int>, plays: seq<Play>, i: nat, j: nat)
    requires i < j < |plays| && Proper(g, plays[i].ctx.contractAddress) && NonNegative(plays[i].balances)
    requires var e := Outcome(g, StorageThen(g, storage, plays[..i]), plays[i]); e.success && e.balanceChanges != map[]
    ensures var e := Outcome(g, StorageThen(g, storage, plays[..j]), plays[j]); e.balanceChanges == map[] && e.transfers == []
  {
    hide Execute, SettledIn;
    var early := plays[..i + 1];
    assert early[..i] == plays[..i] && plays[..j][..i + 1] == early;
    PayingSettles(plays[i].ctx, g, plays[i].gasLimit, StorageThen(g, storage, plays[..i]), plays[i].balances);
    assert StorageThen(g, storage, early) == Outcome(g, StorageThen(g, storage, plays[..i]), plays[i]).storage;
    SettledForGood(g, storage, plays[..j], i + 1);
    SettledMovesNothing(plays[j].ctx, g, plays[j].gasLimit, StorageThen(g, storage, plays[..j]), plays[j].balances);
  }
}

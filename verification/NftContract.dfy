/** The NFT program the node ships, and its exact behaviour for every caller, input, storage and gas limit. */
module NftContract {
  import opened Base
  import opened Uvm
  import opened UvmRules
  import opened UvmTheorems

  const OWNER: string := "owner"
  const RECIPIENT: string := "recipient"
  const INITIAL_OWNER: string := "initial_owner"


  function NftProgram(): Program {
    [Instruction(LOAD, [Key(OWNER)]),
     Instruction(JUMPI, [Word(4)]),
     Instruction(READ_METADATA, [Key(INITIAL_OWNER)]),
     Instruction(STORE, [Key(OWNER)]),
     Instruction(LOAD, [Key(OWNER)]),
     Instruction(TX_SENDER, []),
     Instruction(EQ, []),
     Instruction(JUMPI, [Word(9)]),
     Instruction(REVERT, []),
     Instruction(READ_INPUT, [Key(RECIPIENT)]),
     Instruction(DUP, []),
     Instruction(JUMPI, [Word(13)]),
     Instruction(REVERT, []),
     Instruction(STORE, [Key(OWNER)]),
     Instruction(HALT, [])]
  }

  function StoredOwner(storage: map<string, int>): int {
    Normalize(Get(storage, OWNER, 0))
  }

  // The owner before the call: the stored one, or the one the deployment named.
  function OwnerBefore(ctx: Context, storage: map<string, int>): Option<int> {
    if StoredOwner(storage) != 0 then Some(StoredOwner(storage)) else WordOf(ctx.metadata, INITIAL_OWNER)
  }

  // The caller is the owner, and names a recipient other than zero.
  predicate MayTransfer(ctx: Context, storage: map<string, int>) {
    && ctx.senderWord.Some?
    && OwnerBefore(ctx, storage) == Some(Normalize(ctx.senderWord.value))
    && WordOf(ctx.input, RECIPIENT).Some? && WordOf(ctx.input, RECIPIENT).value != 0
  }

  lemma Text()
    ensures var p := NftProgram();
            && |p| == 15
            && p[0] == p[4] == Instruction(LOAD, [Key(OWNER)])
            && p[1] == Instruction(JUMPI, [Word(4)])
            && p[2] == Instruction(READ_METADATA, [Key(INITIAL_OWNER)])
            && p[3] == p[13] == Instruction(STORE, [Key(OWNER)])
            && p[5] == Instruction(TX_SENDER, [])
            && p[6] == Instruction(EQ, [])
            && p[7] == Instruction(JUMPI, [Word(9)])
            && p[8] == p[12] == Instruction(REVERT, [])
            && p[9] == Instruction(READ_INPUT, [Key(RECIPIENT)])
            && p[10] == Instruction(DUP, [])
            && p[11] == Instruction(JUMPI, [Word(13)])
            && p[14] == Instruction(HALT, [])
  {
  }

  // Gas of a successful transfer: the first one also copies the initial owner into storage.
  function TransferGas(storage: map<string, int>): nat {
    if StoredOwner(storage) != 0 then 181 else 291
  }

  // Instructions 0 to 3 leave the current owner in storage, or fail.
  lemma LoadOwner(ctx: Context, m: Memory, gas: nat)
    requires gas >= 140 && m.stack == [] && IsWord(Get(m.storage, OWNER, 0))
    ensures var f := Run(NftProgram(), ctx, m, 0, gas);
            var init := WordOf(ctx.metadata, INITIAL_OWNER);
            if Get(m.storage, OWNER, 0) != 0 then f == Run(NftProgram(), ctx, m, 4, gas - 30)
            else if init.Some? then f == Run(NftProgram(), ctx, m.(storage := m.storage[OWNER := init.value]), 4, gas - 140)
            else f.ending.Trapping?
  {
    hide Run, NftProgram, Step, Normalize, IsWord, WordOf;
    var p := NftProgram();
    Text();
    TestStorage(p, ctx, m, 0, gas, OWNER, 4);
    if Get(m.storage, OWNER, 0) == 0 {
      StoreInitialOwner(ctx, m, gas - 30);
    }
  }

  // Instructions 2 and 3.
  lemma StoreInitialOwner(ctx: Context, m: Memory, gas: nat)
    requires gas >= 110 && m.stack == []
    ensures var f := Run(NftProgram(), ctx, m, 2, gas);
            var init := WordOf(ctx.metadata, INITIAL_OWNER);
            if init.Some? then f == Run(NftProgram(), ctx, m.(storage := m.storage[OWNER := init.value]), 4, gas - 110)
            else f.ending.Trapping?
  {
    hide Run, NftProgram, Step, Normalize, IsWord, WordOf;
    var p := NftProgram();
    Text();
    if WordOf(ctx.metadata, INITIAL_OWNER).Some? {
      var m3 := ReadMetadata(p, ctx, m, 2, gas, INITIAL_OWNER);
      var m4 := Store(p, ctx, m3, 3, gas - 10, OWNER);
      assert m4 == m.(storage := m.storage[OWNER := WordOf(ctx.metadata, INITIAL_OWNER).value]);
    } else {
      NoSuchMetadata(p, ctx, m, 2, gas);
    }
  }

  lemma NoSuchMetadata(p: Program, ctx: Context, m: Memory, pc: nat, gas: nat)
    requires Fetches(p, pc, gas, Instruction(READ_METADATA, [Key(INITIAL_OWNER)]))
    requires WordOf(ctx.metadata, INITIAL_OWNER).None?
    ensures Run(p, ctx, m, pc, gas).ending.Trapping?
  {
    hide Run;
    Fault(p, ctx, m, pc, gas);
  }

  lemma CompareCaller(ctx: Context, m: Memory, gas: nat, same: int)
    requires gas >= 34 && m.stack == [] && IsWord(Get(m.storage, OWNER, 0)) && ctx.senderWord.Some?
    requires same == Flag(Get(m.storage, OWNER, 0) == Normalize(ctx.senderWord.value))
    ensures Run(NftProgram(), ctx, m, 4, gas) == Run(NftProgram(), ctx, m.(stack := [same]), 7, gas - 29)
  {
    hide Run, NftProgram, Step, Normalize, IsWord;
    var p := NftProgram();
    Text();
    var m1 := Load(p, ctx, m, 4, gas, OWNER);
    var m2 := TxSender(p, ctx, m1, 5, gas - 25);
    var m3 := Binary(p, ctx, m2, 6, gas - 27, EQ, same);
    FlagFacts(Get(m.storage, OWNER, 0) == Normalize(ctx.senderWord.value));
    assert m3 == m.(stack := [same]);
  }

  // Instructions 4 to 8 let only the owner through.
  lemma CheckCaller(ctx: Context, m: Memory, gas: nat)
    requires gas >= 34 && m.stack == [] && IsWord(Get(m.storage, OWNER, 0))
    ensures var f := Run(NftProgram(), ctx, m, 4, gas);
            if ctx.senderWord.Some? && Get(m.storage, OWNER, 0) == Normalize(ctx.senderWord.value)
            then f == Run(NftProgram(), ctx, m, 9, gas - 34)
            else f.ending.Trapping?
  {
    hide Run, NftProgram, Step, Normalize, IsWord;
    var p := NftProgram();
    Text();
    if ctx.senderWord.None? {
      var m1 := Load(p, ctx, m, 4, gas, OWNER);
      NoSender(p, ctx, m1, 5, gas - 25);
    } else {
      var same := Flag(Get(m.storage, OWNER, 0) == Normalize(ctx.senderWord.value));
      CompareCaller(ctx, m, gas, same);
      var m4 := JumpIf(p, ctx, m.(stack := [same]), 7, gas - 29, 9);
      assert m4 == m;
      if same == 0 {
        Reverts(p, ctx, m, 8, gas - 34);
      }
    }
  }

  lemma NoSender(p: Program, ctx: Context, m: Memory, pc: nat, gas: nat)
    requires Fetches(p, pc, gas, Instruction(TX_SENDER, [])) && ctx.senderWord.None?
    ensures Run(p, ctx, m, pc, gas).ending.Trapping?
  {
    hide Run;
    Fault(p, ctx, m, pc, gas);
  }

  lemma Reverts(p: Program, ctx: Context, m: Memory, pc: nat, gas: nat)
    requires Fetches(p, pc, gas, Instruction(REVERT, []))
    ensures Run(p, ctx, m, pc, gas).ending.Trapping?
  {
    hide Run;
    Fault(p, ctx, m, pc, gas);
  }

  lemma TakeRecipient(ctx: Context, m: Memory, gas: nat, recipient: int)
    requires gas >= 17 && m.stack == [] && WordOf(ctx.input, RECIPIENT) == Some(recipient)
    ensures Run(NftProgram(), ctx, m, 9, gas) == Run(NftProgram(), ctx, m.(stack := [recipient, recipient]), 11, gas - 12)
  {
    hide Run, NftProgram, Step, Normalize, IsWord;
    var p := NftProgram();
    Text();
    WordFacts(ctx.input[RECIPIENT].value);
    hide WordOf;
    var m1 := ReadInput(p, ctx, m, 9, gas, RECIPIENT);
    assert m1 == m.(stack := [recipient]);
    var m2 := Dup(p, ctx, m1, 10, gas - 10);
    assert m2 == m.(stack := [recipient, recipient]);
  }

  // Instructions 9 to 14 write a non-zero recipient as the owner.
  lemma HandOver(ctx: Context, m: Memory, gas: nat)
    requires gas >= 117 && m.stack == []
    ensures var f := Run(NftProgram(), ctx, m, 9, gas);
            var recipient := WordOf(ctx.input, RECIPIENT);
            if recipient.Some? && recipient.value != 0
            then f == Final(Completed, m.(storage := m.storage[OWNER := recipient.value]), 14, gas - 117)
            else f.ending.Trapping?
  {
    hide Run, NftProgram, Step, Normalize, WordOf;
    var p := NftProgram();
    Text();
    var recipient := WordOf(ctx.input, RECIPIENT);
    if recipient.None? {
      NoSuchInput(p, ctx, m, 9, gas);
    } else {
      TakeRecipient(ctx, m, gas, recipient.value);
      var m1 := JumpIf(p, ctx, m.(stack := [recipient.value, recipient.value]), 11, gas - 12, 13);
      assert m1 == m.(stack := [recipient.value]);
      if recipient.value == 0 {
        Reverts(p, ctx, m1, 12, gas - 17);
      } else {
        var m2 := Store(p, ctx, m1, 13, gas - 17, OWNER);
        assert m2 == m.(storage := m.storage[OWNER := recipient.value]);
        Stop(p, ctx, m2, 14, gas - 117);
      }
    }
  }

  lemma NoSuchInput(p: Program, ctx: Context, m: Memory, pc: nat, gas: nat)
    requires Fetches(p, pc, gas, Instruction(READ_INPUT, [Key(RECIPIENT)]))
    requires WordOf(ctx.input, RECIPIENT).None?
    ensures Run(p, ctx, m, pc, gas).ending.Trapping?
  {
    hide Run;
    Fault(p, ctx, m, pc, gas);
  }

  lemma WithAmpleGas(ctx: Context, storage: map<string, int>, balances: map<string, real>)
    ensures var e := Execute(Some(NftProgram()), ctx, 291, storage, balances);
            && !e.gasExhausted
            && e.success == MayTransfer(ctx, storage)
            && (e.success ==>
                && e.gasUsed == TransferGas(storage)
                && e.storage == InitialMemory(storage, balances).storage[OWNER := WordOf(ctx.input, RECIPIENT).value]
                && e.balanceChanges == map[] && e.transfers == [])
  {
    hide Run, NftProgram, Step, Normalize;
    var m := InitialMemory(storage, balances);
    WordFacts(Get(storage, OWNER, 0));
    WordFacts(0);
    assert Get(m.storage, OWNER, 0) == StoredOwner(storage);
    LoadOwner(ctx, m, 291);
    var owner := OwnerBefore(ctx, storage);
    if owner.Some? {
      var m4 := if StoredOwner(storage) != 0 then m else m.(storage := m.storage[OWNER := owner.value]);
      if StoredOwner(storage) == 0 {
        WordFacts(ctx.metadata[INITIAL_OWNER].value);
      }
      var gas := if StoredOwner(storage) != 0 then 261 else 151;
      CheckCaller(ctx, m4, gas);
      HandOver(ctx, m4, gas - 34);
      assert m.storage[OWNER := owner.value][OWNER := WordOf(ctx.input, RECIPIENT).GetOr(0)]
          == m.storage[OWNER := WordOf(ctx.input, RECIPIENT).GetOr(0)];
      assert NonZero(map[]) == map[];
    }
  }

  // The program succeeds exactly when the owner calls it with a non-zero recipient and enough
  // gas; then the recipient is the owner, nothing else in storage changes and no funds move.
  // Without success no funds move either.
  lemma OnlyTheOwnerTransfers(ctx: Context, gasLimit: nat, storage: map<string, int>, balances: map<string, real>)
    ensures var e := Execute(Some(NftProgram()), ctx, gasLimit, storage, balances);
            && e.success == (MayTransfer(ctx, storage) && gasLimit >= TransferGas(storage))
            && (e.success ==>
                && e.gasUsed == TransferGas(storage)
                && e.storage == InitialMemory(storage, balances).storage[OWNER := WordOf(ctx.input, RECIPIENT).value])
            && e.balanceChanges == map[] && e.transfers == []
  {
    hide Run, NftProgram, Step, Normalize;
    WithAmpleGas(ctx, storage, balances);
    GasLimitIndependence(Some(NftProgram()), ctx, 291, gasLimit, storage, balances);
    NoTransferInText();
    NoTransfersReported(NftProgram(), ctx, gasLimit, storage, balances);
  }

  lemma NoTransferInText()
    ensures MovesNoFunds(NftProgram())
  {
  }
}

/** What contract runs see of the chain they run on: which instructions go on, which words they
    yield, and what whole calls of small programs do to the ledger. */
module ChainRuns {
  import opened Base
  import opened Ledger
  import opened LedgerTheorems
  import opened ContractStorage
  import opened AccountLaws
  import opened LedgerAuthority
  import U = Uvm
  import R = UvmRules
  import NftContract
  import G = Coinflip

  // ---- The call ---------------------------------------------------------------------------

  // The program a call runs: the deployed one, or the one the transaction carries.
  predicate CallRuns(s: State, tx: Transaction, program: U.Program)
    requires tx.payload.ExecuteCode?
  {
    if tx.receiver in s.contracts then program == s.contracts[tx.receiver].program else tx.payload.input == Code(program)
  }

  // The code hash that authorizations have to name for the call.
  function CallHash(c: Crypto, s: State, tx: Transaction): string
    requires tx.payload.ExecuteCode?
  {
    if tx.receiver in s.contracts then s.contracts[tx.receiver].codeHash else c.codeHash(tx.payload.input, Metadata(map[], NoIds))
  }

  ghost predicate Authorised(c: Crypto, s: State, tx: Transaction, height: int, wallet: string, request: string)
    requires tx.payload.ExecuteCode?
  {
    OnRecord(s.authorizations, wallet, request, tx.receiver, CallHash(c, s, tx), height)
  }

  function CallContext(c: Crypto, s: State, tx: Transaction, height: int): U.Context
    requires tx.payload.ExecuteCode?
  {
    ExecutionContext(c, s, tx, TargetOf(c, s, tx), height)
  }

  lemma CallSees(c: Crypto, s: State, tx: Transaction, height: int)
    requires tx.payload.ExecuteCode?
    ensures var ctx := CallContext(c, s, tx, height);
            && ctx.txSender == tx.sender && ctx.senderWord == c.addressWord(tx.sender) && ctx.contractAddress == tx.receiver
            && ctx.commitments == s.commitments && ctx.revealed == s.revealed && ctx.blockHeight == height && ctx.sha256 == c.sha256
            && ctx.metadata == CallMetadata(s, tx) && ctx.input == CallInput(s, tx)
    ensures forall w, r :: U.IsRequestAuthorized(CallContext(c, s, tx, height).authorizations, w, r) <==> Authorised(c, s, tx, height, w, r)
  {
    hide AuthorizationsFor, OnRecord;
    forall w, r
      ensures U.IsRequestAuthorized(CallContext(c, s, tx, height).authorizations, w, r) <==> Authorised(c, s, tx, height, w, r)
    {
      IndexIsTheRecord(s.authorizations, w, r, tx.receiver, TargetOf(c, s, tx).codeHash, height);
    }
  }

  // The words a call reads: a contract's metadata and the caller's input; a program the
  // transaction carries reads neither.
  function CallMetadata(s: State, tx: Transaction): U.WordMap {
    if tx.receiver in s.contracts && s.contracts[tx.receiver].metadata.Metadata? then s.contracts[tx.receiver].metadata.words else map[]
  }

  function CallInput(s: State, tx: Transaction): U.WordMap
    requires tx.payload.ExecuteCode?
  {
    if tx.receiver in s.contracts && tx.payload.input.Words? then tx.payload.input.words else map[]
  }

  // A call is a run of its program from an empty stack, on the contract's storage and with the
  // sender's balance less amount and fee, and the contract's with the amount.
  lemma CallIsRun(c: Crypto, s: State, tx: Transaction, height: int, program: U.Program) returns (balances: map<string, real>)
    requires tx.payload.ExecuteCode? && ExecuteError(s, tx).None? && CallRuns(s, tx, program)
    ensures forall a :: Bal(balances, a) == Bal(s.balances, a) - (if a == tx.sender then tx.amount + tx.fee else 0.0)
                                                               + (if a == tx.receiver then tx.amount else 0.0)
    ensures Execution(c, s, tx, height) == U.Execute(Some(program), CallContext(c, s, tx, height), tx.payload.gasLimit.value,
                                                     StorageOf(s, tx.receiver), balances)
  {
    hide Bal, U.Execute, ExecutionContext;
    balances := EscrowedBalances(s, tx);
    CreditMoves(s.balances, tx.sender, -(tx.amount + tx.fee));
    CreditMoves(Credited(s.balances, tx.sender, -(tx.amount + tx.fee)), tx.receiver, tx.amount);
    EscrowIsCredit(s, tx);
  }

  lemma EscrowIsCredit(s: State, tx: Transaction)
    requires tx.amount >= 0.0
    ensures var charged := Credited(s.balances, tx.sender, -(tx.amount + tx.fee));
            EscrowedBalances(s, tx) == if tx.amount > 0.0 then Credited(charged, tx.receiver, tx.amount) else charged
  {
  }

  // ---- Instructions -----------------------------------------------------------------------

  // The run goes on behind the instruction with one word more on its stack, unless it is full.
  ghost predicate Yields(p: U.Program, ctx: U.Context, m: U.Memory, pc: nat, gas: nat, cost: nat, word: int) {
    gas >= cost
    && U.Run(p, ctx, m, pc, gas) ==
         if |m.stack| < 1024 then U.Run(p, ctx, m.(stack := m.stack + [word % U.WORD_MODULUS]), pc + 1, gas - cost)
         else U.Final(U.Trapping(U.Error(U.StackLimitExceeded)), m, pc, gas - cost)
  }

  ghost predicate Stops(p: U.Program, ctx: U.Context, m: U.Memory, pc: nat, gas: nat, cost: nat, e: U.UvmError) {
    gas >= cost && U.Run(p, ctx, m, pc, gas) == U.Final(U.Trapping(U.Error(e)), m, pc, gas - cost)
  }

  predicate Next(p: U.Program, pc: nat, op: U.Opcode, operands: seq<U.Operand>) {
    pc < |p| && p[pc] == U.Instruction(op, operands)
  }

  predicate Named(wallet: string, request: string) {
    wallet != "" && request != ""
  }

  // A run goes on past the instruction exactly when the wallet's authorization is on record.
  lemma RequireAuthDecides(c: Crypto, s: State, tx: Transaction, height: int, p: U.Program, m: U.Memory, pc: nat, gas: nat, wallet: string, request: string)
    requires tx.payload.ExecuteCode? && Named(wallet, request) && gas >= 20
    requires Next(p, pc, U.REQUIRE_AUTH, [U.Key(wallet), U.Key(request)])
    ensures var ctx := CallContext(c, s, tx, height);
            if Authorised(c, s, tx, height, wallet, request) then U.Run(p, ctx, m, pc, gas) == U.Run(p, ctx, m, pc + 1, gas - 20)
            else Stops(p, ctx, m, pc, gas, 20, U.NotAuthorized(wallet, request))
  {
    hide CallContext, Authorised;
    CallSees(c, s, tx, height);
  }

  lemma HasAuthTells(c: Crypto, s: State, tx: Transaction, height: int, p: U.Program, m: U.Memory, pc: nat, gas: nat, wallet: string, request: string)
    requires tx.payload.ExecuteCode? && Named(wallet, request) && gas >= 20
    requires Next(p, pc, U.HAS_AUTH, [U.Key(wallet), U.Key(request)])
    ensures Yields(p, CallContext(c, s, tx, height), m, pc, gas, 20, if Authorised(c, s, tx, height, wallet, request) then 1 else 0)
  {
    hide CallContext, Authorised;
    CallSees(c, s, tx, height);
  }

  // A commitment is read exactly when it is on record and its wallet has authorised the request.
  lemma ReadCommitTells(c: Crypto, s: State, tx: Transaction, height: int, p: U.Program, m: U.Memory, pc: nat, gas: nat, wallet: string, request: string)
    requires tx.payload.ExecuteCode? && Named(wallet, request) && gas >= 30
    requires Next(p, pc, U.READ_COMMIT, [U.Key(wallet), U.Key(request)])
    ensures var ctx := CallContext(c, s, tx, height);
            if !Authorised(c, s, tx, height, wallet, request) then Stops(p, ctx, m, pc, gas, 30, U.NotAuthorized(wallet, request))
            else if CommitmentIn(s, request, wallet).None? then Stops(p, ctx, m, pc, gas, 30, U.MissingCommitment(wallet, request))
            else Yields(p, ctx, m, pc, gas, 30, CommitmentIn(s, request, wallet).value)
  {
    hide CallContext, Authorised;
    CallSees(c, s, tx, height);
  }

  lemma HasRevealTells(c: Crypto, s: State, tx: Transaction, height: int, p: U.Program, m: U.Memory, pc: nat, gas: nat, wallet: string, request: string)
    requires tx.payload.ExecuteCode? && Named(wallet, request) && gas >= 10
    requires Next(p, pc, U.HAS_REVEAL, [U.Key(wallet), U.Key(request)])
    ensures Yields(p, CallContext(c, s, tx, height), m, pc, gas, 10, if RevealIn(s, request, wallet).Some? then 1 else 0)
  {
    hide CallContext, Authorised;
    CallSees(c, s, tx, height);
  }

  // A seed is read exactly when it is on record; that needs no authorization.
  lemma ReadRevealTells(c: Crypto, s: State, tx: Transaction, height: int, p: U.Program, m: U.Memory, pc: nat, gas: nat, wallet: string, request: string)
    requires tx.payload.ExecuteCode? && Named(wallet, request) && gas >= 30
    requires Next(p, pc, U.READ_REVEAL, [U.Key(wallet), U.Key(request)])
    ensures var ctx := CallContext(c, s, tx, height);
            if RevealIn(s, request, wallet).None? then Stops(p, ctx, m, pc, gas, 30, U.MissingReveal(wallet, request))
            else Yields(p, ctx, m, pc, gas, 30, RevealIn(s, request, wallet).value.seed)
  {
    hide CallContext, Authorised;
    CallSees(c, s, tx, height);
  }

  lemma BlockHeightTells(c: Crypto, s: State, tx: Transaction, height: int, p: U.Program, m: U.Memory, pc: nat, gas: nat)
    requires tx.payload.ExecuteCode? && gas >= 2 && Next(p, pc, U.BLOCK_HEIGHT, [])
    ensures Yields(p, CallContext(c, s, tx, height), m, pc, gas, 2, height)
  {
    hide CallContext, Authorised;
    CallSees(c, s, tx, height);
  }

  lemma TxSenderTells(c: Crypto, s: State, tx: Transaction, height: int, p: U.Program, m: U.Memory, pc: nat, gas: nat)
    requires tx.payload.ExecuteCode? && gas >= 2 && Next(p, pc, U.TX_SENDER, [])
    ensures var ctx, word := CallContext(c, s, tx, height), c.addressWord(tx.sender);
            if word.None? then Stops(p, ctx, m, pc, gas, 2, U.NotAnInteger) else Yields(p, ctx, m, pc, gas, 2, word.value)
  {
    hide CallContext, Authorised;
    CallSees(c, s, tx, height);
  }

  // What reading a key of some words does to a run.
  ghost predicate Reads(words: U.WordMap, key: string, p: U.Program, ctx: U.Context, m: U.Memory, pc: nat, gas: nat) {
    if key !in words then Stops(p, ctx, m, pc, gas, 10, U.MissingKey(key))
    else if words[key].None? then Stops(p, ctx, m, pc, gas, 10, U.NotAnInteger)
    else Yields(p, ctx, m, pc, gas, 10, words[key].value)
  }

  lemma MetadataTells(c: Crypto, s: State, tx: Transaction, height: int, p: U.Program, m: U.Memory, pc: nat, gas: nat, key: string)
    requires tx.payload.ExecuteCode? && gas >= 10 && key != "" && Next(p, pc, U.READ_METADATA, [U.Key(key)])
    ensures Reads(CallMetadata(s, tx), key, p, CallContext(c, s, tx, height), m, pc, gas)
  {
    hide CallContext, Authorised, CallMetadata;
    CallSees(c, s, tx, height);
  }

  lemma InputTells(c: Crypto, s: State, tx: Transaction, height: int, p: U.Program, m: U.Memory, pc: nat, gas: nat, key: string)
    requires tx.payload.ExecuteCode? && gas >= 10 && key != "" && Next(p, pc, U.READ_INPUT, [U.Key(key)])
    ensures Reads(CallInput(s, tx), key, p, CallContext(c, s, tx, height), m, pc, gas)
  {
    hide CallContext, Authorised, CallInput;
    CallSees(c, s, tx, height);
  }

  // ---- Transfers --------------------------------------------------------------------------

  // The account an operand names in a call.
  function AccountIn(tx: Transaction, operand: string): string {
    if operand == "$CONTRACT" then tx.receiver else operand
  }

  ghost predicate Spendable(c: Crypto, s: State, tx: Transaction, height: int, source: string, request: string)
    requires tx.payload.ExecuteCode?
  {
    source == tx.sender || source == tx.receiver || Authorised(c, s, tx, height, source, request)
  }

  function Shift(account: string, source: string, target: string, amount: int): real {
    (if account == target then amount as real else 0.0) - (if account == source then amount as real else 0.0)
  }

  // The word on top of the stack has moved from source to target, and nothing else has changed.
  ghost predicate Moves(m: U.Memory, m': U.Memory, source: string, target: string, request: string)
    requires m.stack != []
  {
    var n := m.stack[|m.stack| - 1];
    && m'.stack == m.stack[..|m.stack| - 1] && m'.scratch == m.scratch && m'.storage == m.storage
    && m'.transfers == m.transfers + [U.Transfer(source, target, n, request)]
    && (forall a :: Bal(m'.balances, a) == Bal(m.balances, a) + Shift(a, source, target, n))
    && (forall a :: Bal(m'.changes, a) == Bal(m.changes, a) + Shift(a, source, target, n))
  }

  lemma ShiftedTwice(balances: map<string, real>, source: string, target: string, n: int)
    ensures forall a :: Bal(U.Shifted(U.Shifted(balances, source, -(n as real)), target, n as real), a)
                        == Bal(balances, a) + Shift(a, source, target, n)
  {
  }

  // A transfer goes through exactly when its amount is positive, the source is the sender, the
  // contract or has its authorization on record, and the source has the amount.
  lemma TransferDecides(c: Crypto, s: State, tx: Transaction, height: int, p: U.Program, m: U.Memory, pc: nat, gas: nat,
                        a: string, b: string, request: string) returns (m': U.Memory)
    requires tx.payload.ExecuteCode? && Named(a, b) && request != "" && m.stack != [] && gas >= 50
    requires Next(p, pc, U.TRANSFER_FROM, [U.Key(a), U.Key(b), U.Key(request)])
    ensures var ctx, source, n := CallContext(c, s, tx, height), AccountIn(tx, a), m.stack[|m.stack| - 1];
            var popped := m.(stack := m.stack[..|m.stack| - 1]);
            && Moves(m, m', source, AccountIn(tx, b), request)
            && if n <= 0 then Stopped(p, ctx, m, pc, gas, popped, U.NonPositiveTransfer)
               else if !Spendable(c, s, tx, height, source, request) then Stopped(p, ctx, m, pc, gas, popped, U.NotAuthorized(source, request))
               else if Bal(m.balances, source) < n as real then Stopped(p, ctx, m, pc, gas, popped, U.SourceBalanceTooLow(source))
               else U.Run(p, ctx, m, pc, gas) == U.Run(p, ctx, m', pc + 1, gas - 50)
  {
    hide CallContext, Authorised, Bal, U.Shifted, Shift;
    CallSees(c, s, tx, height);
    var source, target, n := AccountIn(tx, a), AccountIn(tx, b), m.stack[|m.stack| - 1];
    ShiftedTwice(m.balances, source, target, n);
    ShiftedTwice(m.changes, source, target, n);
    m' := U.Booked(U.Popped(m), U.Transfer(source, target, n, request));
  }

  ghost predicate Stopped(p: U.Program, ctx: U.Context, m: U.Memory, pc: nat, gas: nat, m': U.Memory, e: U.UvmError) {
    gas >= 50 && U.Run(p, ctx, m, pc, gas) == U.Final(U.Trapping(U.Error(e)), m', pc, gas - 50)
  }

  // ---- Whole calls ------------------------------------------------------------------------

  // Pays an amount from one account to another, and ends.
  function Payment(a: string, b: string, request: string, n: int): U.Program {
    [U.Instruction(U.PUSH, [U.Word(n)]), U.Instruction(U.TRANSFER_FROM, [U.Key(a), U.Key(b), U.Key(request)]), U.Instruction(U.HALT, [])]
  }

  lemma PaymentEnds(c: Crypto, s: State, tx: Transaction, height: int, a: string, b: string, request: string, n: int,
                    m: U.Memory, gas: nat) returns (m': U.Memory)
    requires tx.payload.ExecuteCode? && Named(a, b) && request != "" && 0 < n < U.WORD_MODULUS && m.stack == []
    ensures Moves(m.(stack := [n]), m', AccountIn(tx, a), AccountIn(tx, b), request)
    ensures var f := U.Run(Payment(a, b, request, n), CallContext(c, s, tx, height), m, 0, gas);
            if gas < 51 then f.ending.Exhausted? && f.gas == 0
            else if Spendable(c, s, tx, height, AccountIn(tx, a), request) && Bal(m.balances, AccountIn(tx, a)) >= n as real
            then f == U.Final(U.Completed, m', 2, gas - 51)
            else f.ending.Trapping? && f.gas == gas - 51
  {
    hide U.Step, Bal, Moves, CallContext, Spendable, AccountIn;
    var p, ctx := Payment(a, b, request, n), CallContext(c, s, tx, height);
    var pushed := m.(stack := [n]);
    if gas >= 51 {
      m' := TransferDecides(c, s, tx, height, p, pushed, 1, gas - 1, a, b, request);
    } else {
      m' := TransferDecides(c, s, tx, height, p, pushed, 1, 50, a, b, request);
    }
    if gas >= 1 {
      hide U.Run;
      var m1 := R.Push(p, ctx, m, 0, gas, n);
      assert m1 == pushed;
    }
    hide Payment;
    PaymentText(a, b, request, n);
    if gas >= 51 {
      R.Stop(p, ctx, m', 2, gas - 51);
    }
  }

  lemma PaymentText(a: string, b: string, request: string, n: int)
    ensures var p := Payment(a, b, request, n);
            |p| == 3 && p[0].op == U.PUSH && p[1].op == U.TRANSFER_FROM && p[2] == U.Instruction(U.HALT, [])
  {
  }

  // The funds an account has in a call, before its program runs.
  function Funds(s: State, tx: Transaction, account: string): real {
    Bal(s.balances, account) - (if account == tx.sender then tx.amount + tx.fee else 0.0) + (if account == tx.receiver then tx.amount else 0.0)
  }

  ghost predicate PaymentGoes(c: Crypto, s: State, tx: Transaction, height: int, a: string, request: string, n: int)
    requires tx.payload.ExecuteCode? && tx.payload.gasLimit.Some?
  {
    && tx.payload.gasLimit.value >= 51 && Spendable(c, s, tx, height, AccountIn(tx, a), request)
    && Funds(s, tx, AccountIn(tx, a)) >= n as real
  }

  lemma PaymentRuns(c: Crypto, s: State, tx: Transaction, height: int, a: string, b: string, request: string, n: int)
    requires tx.payload.ExecuteCode? && ExecuteError(s, tx).None? && CallRuns(s, tx, Payment(a, b, request, n))
    requires Named(a, b) && request != "" && 0 < n < U.WORD_MODULUS
    ensures var e, limit := Execution(c, s, tx, height), tx.payload.gasLimit.value;
            && (e.success <==> PaymentGoes(c, s, tx, height, a, request, n))
            && e.gasUsed == (if limit < 51 then limit else 51)
            && (e.success ==> e.storage == U.InitialMemory(StorageOf(s, tx.receiver), map[]).storage
                              && forall x :: Bal(e.balanceChanges, x) == Shift(x, AccountIn(tx, a), AccountIn(tx, b), n))
  {
    hide Bal, U.Run, CallContext, Spendable, AccountIn, Payment, Execution, Shift;
    var balances := CallIsRun(c, s, tx, height, Payment(a, b, request, n));
    var m, limit := U.InitialMemory(StorageOf(s, tx.receiver), balances), tx.payload.gasLimit.value;
    var m' := PaymentEnds(c, s, tx, height, a, b, request, n, m, limit);
    NonZeroKeepsBalances(m'.changes);
    NothingYet();
  }

  lemma NonZeroKeepsBalances(changes: map<string, real>)
    ensures forall x :: Bal(U.NonZero(changes), x) == Bal(changes, x)
  {
  }

  lemma NothingYet()
    ensures forall x :: Bal(map[], x) == 0.0
  {
  }

  // An accepted call of the payment moves its amount exactly when the gas, the right to spend and
  // the funds are there; otherwise it only costs its fee.
  lemma PaymentMoves(c: Crypto, s: State, tx: Transaction, height: int, a: string, b: string, request: string, n: int, account: string)
    requires Apply(c, s, tx, height).Success? && !IsReward(tx) && tx.payload.ExecuteCode?
    requires CallRuns(s, tx, Payment(a, b, request, n)) && Named(a, b) && request != "" && 0 < n < U.WORD_MODULUS
    ensures tx.payload.gasLimit.Some? && tx.payload.gasPrice.Some?
    ensures var r, limit, price := Apply(c, s, tx, height).value, tx.payload.gasLimit.value, tx.payload.gasPrice.value;
            && r.feePaid == (if price > 0.0 then (if limit < 51 then limit else 51) as real * price else tx.fee)
            && Bal(r.state.balances, account) == Bal(s.balances, account) - (if account == tx.sender then r.feePaid else 0.0)
                 + (if PaymentGoes(c, s, tx, height, a, request, n)
                    then Shift(account, AccountIn(tx, a), AccountIn(tx, b), n) + To(account, tx.receiver, tx.amount) - To(account, tx.sender, tx.amount)
                    else 0.0)
  {
    hide Bal, Apply, Spendable, AccountIn, Payment, Execution, Shift, PaymentGoes, CallRuns;
    BalancesMove(c, s, tx, height);
    CallIsPriced(c, s, tx);
    PaymentRuns(c, s, tx, height, a, b, request, n);
  }

  lemma CallIsPriced(c: Crypto, s: State, tx: Transaction)
    requires Admissible(c, s, tx) && !IsReward(tx) && tx.payload.ExecuteCode?
    ensures ExecuteError(s, tx).None? && tx.payload.gasLimit.Some? && tx.payload.gasPrice.Some?
  {
    hide Bal, SignedBy;
    AdmissibleRuns(s, tx, c);
  }

  // A program that starts by requiring a wallet's authorization does nothing without it: the call
  // costs its fee and leaves every balance and the storage.
  lemma UnauthorisedCallsDoNothing(c: Crypto, s: State, tx: Transaction, height: int, p: U.Program, wallet: string, request: string, account: string)
    requires Apply(c, s, tx, height).Success? && !IsReward(tx) && tx.payload.ExecuteCode? && CallRuns(s, tx, p)
    requires Next(p, 0, U.REQUIRE_AUTH, [U.Key(wallet), U.Key(request)]) && Named(wallet, request)
    requires !Authorised(c, s, tx, height, wallet, request)
    ensures var r := Apply(c, s, tx, height).value;
            && Bal(r.state.balances, account) == Bal(s.balances, account) - (if account == tx.sender then r.feePaid else 0.0)
            && StorageOf(r.state, tx.receiver) == StorageOf(s, tx.receiver)
  {
    hide Bal, Apply, Authorised, Execution, CallRuns, StorageOf;
    BalancesMove(c, s, tx, height);
    CallIsPriced(c, s, tx);
    GuardStops(c, s, tx, height, p, wallet, request);
    OnlyRunsWriteStorage(c, s, tx, height, tx.receiver);
  }

  lemma GuardStops(c: Crypto, s: State, tx: Transaction, height: int, p: U.Program, wallet: string, request: string)
    requires tx.payload.ExecuteCode? && ExecuteError(s, tx).None? && CallRuns(s, tx, p)
    requires Next(p, 0, U.REQUIRE_AUTH, [U.Key(wallet), U.Key(request)]) && Named(wallet, request)
    requires !Authorised(c, s, tx, height, wallet, request)
    ensures !Execution(c, s, tx, height).success
  {
    hide Bal, CallContext, Authorised, Execution;
    var balances := CallIsRun(c, s, tx, height, p);
    var m, limit := U.InitialMemory(StorageOf(s, tx.receiver), balances), tx.payload.gasLimit.value;
    if limit >= 20 {
      RequireAuthDecides(c, s, tx, height, p, m, 0, limit, wallet, request);
    }
  }

  // Authorizations that have ended let nobody spend: whatever program runs, a wallet whose
  // authorizations have all ended loses nothing, unless it calls or is called itself.
  lemma EndedAuthorizationsSpendNothing(c: Crypto, s: State, tx: Transaction, height: int, wallet: string)
    requires NonNegative(s.balances) && Apply(c, s, tx, height).Success? && wallet != tx.sender && wallet != tx.receiver
    requires forall i :: 0 <= i < |s.authorizations| && s.authorizations[i].wallet == wallet ==>
               s.authorizations[i].scope.validUntil.Some? && s.authorizations[i].scope.validUntil.value < height
    ensures Bal(Apply(c, s, tx, height).value.state.balances, wallet) >= Bal(s.balances, wallet)
  {
    hide Apply, Bal, TargetOf, SignedBy;
    if Bal(Apply(c, s, tx, height).value.state.balances, wallet) < Bal(s.balances, wallet) {
      NobodyElsePays(c, s, tx, height, wallet);
    }
  }

  // ---- The shipped programs on the chain --------------------------------------------------

  function WordAt(words: U.WordMap, key: string): Option<int> {
    if key in words && words[key].Some? then Some(words[key].value % U.WORD_MODULUS) else None
  }

  function Stored(s: State, address: string, key: string): int {
    Get(StorageOf(s, address), key, 0) % U.WORD_MODULUS
  }

  // Who owns the token: the stored owner, or at first the one the deployment names.
  function TokenOwner(s: State, tx: Transaction): Option<int> {
    if Stored(s, tx.receiver, "owner") != 0 then Some(Stored(s, tx.receiver, "owner")) else WordAt(CallMetadata(s, tx), "initial_owner")
  }

  ghost predicate HandsOver(c: Crypto, s: State, tx: Transaction)
    requires tx.payload.ExecuteCode? && tx.payload.gasLimit.Some?
  {
    var caller, recipient := c.addressWord(tx.sender), WordAt(CallInput(s, tx), "recipient");
    && caller.Some? && TokenOwner(s, tx) == Some(caller.value % U.WORD_MODULUS)
    && recipient.Some? && recipient.value != 0
    && tx.payload.gasLimit.value >= (if Stored(s, tx.receiver, "owner") != 0 then 181 else 291)
  }

  // A call of the token contract makes the recipient its owner exactly when the owner calls; it
  // never moves anything but amount and fee.
  lemma TokenOnChain(c: Crypto, s: State, tx: Transaction, height: int)
    requires Apply(c, s, tx, height).Success? && !IsReward(tx) && tx.payload.ExecuteCode?
    requires tx.receiver in s.contracts && s.contracts[tx.receiver].program == NftContract.NftProgram()
    ensures tx.payload.gasLimit.Some?
    ensures var s', goes := Apply(c, s, tx, height).value.state, HandsOver(c, s, tx);
            && (goes ==> Stored(s', tx.receiver, "owner") == WordAt(CallInput(s, tx), "recipient").value)
            && (!goes ==> StorageOf(s', tx.receiver) == StorageOf(s, tx.receiver))
            && forall a :: Bal(s'.balances, a) == Bal(s.balances, a) - To(a, tx.sender, Apply(c, s, tx, height).value.feePaid)
                                                  + (if goes then To(a, tx.receiver, tx.amount) - To(a, tx.sender, tx.amount) else 0.0)
  {
    hide Bal, Apply, Execution, U.Execute, CallContext, Authorised, NftContract.NftProgram, StorageOf;
    BalancesMove(c, s, tx, height);
    CallIsPriced(c, s, tx);
    OnlyRunsWriteStorage(c, s, tx, height, tx.receiver);
    TokenRuns(c, s, tx, height);
    NothingYet();
  }

  lemma TokenRuns(c: Crypto, s: State, tx: Transaction, height: int)
    requires tx.payload.ExecuteCode? && ExecuteError(s, tx).None?
    requires tx.receiver in s.contracts && s.contracts[tx.receiver].program == NftContract.NftProgram()
    ensures var e := Execution(c, s, tx, height);
            && (e.success <==> HandsOver(c, s, tx)) && e.balanceChanges == map[]
            && (e.success ==> Get(e.storage, "owner", 0) % U.WORD_MODULUS == WordAt(CallInput(s, tx), "recipient").value)
  {
    hide Bal, Execution, U.Execute, CallContext, Authorised, NftContract.NftProgram, StorageOf, CallInput, CallMetadata;
    var balances := CallIsRun(c, s, tx, height, NftContract.NftProgram());
    CallSees(c, s, tx, height);
    NftContract.OnlyTheOwnerTransfers(CallContext(c, s, tx, height), tx.payload.gasLimit.value, StorageOf(s, tx.receiver), balances);
  }

  ghost predicate Stakes(c: Crypto, s: State, tx: Transaction, height: int, g: G.Game, wallet: string)
    requires tx.payload.ExecuteCode?
  {
    Spendable(c, s, tx, height, wallet, g.request) && Funds(s, tx, wallet) >= g.amount as real
  }

  // How a game stands on the chain: settled by its storage, flipped once both wallets have revealed
  // their seeds, forfeited after the deadline to the only one that has.
  ghost function GameStands(c: Crypto, s: State, tx: Transaction, height: int, g: G.Game): G.Verdict {
    var one, two := RevealIn(s, g.request, g.one), RevealIn(s, g.request, g.two);
    var deadline := WordAt(CallMetadata(s, tx), "reveal_deadline");
    if Stored(s, tx.receiver, "settled") != 0 then G.AlreadySettled
    else if one.Some? && two.Some? then
      var mixed := U.Xor(one.value.seed % U.WORD_MODULUS, two.value.seed % U.WORD_MODULUS);
      G.Flip(if c.sha256(mixed % U.WORD_MODULUS) % U.WORD_MODULUS % 2 == 0 then g.one else g.two)
    else if deadline.None? then G.Undecidable
    else if height % U.WORD_MODULUS <= deadline.value then G.Waiting
    else if one.Some? then G.Forfeit(g.one)
    else if two.Some? then G.Forfeit(g.two)
    else G.Expired
  }

  lemma GameIsJudged(c: Crypto, s: State, tx: Transaction, height: int, g: G.Game)
    requires tx.payload.ExecuteCode?
    ensures G.Judge(CallContext(c, s, tx, height), g, StorageOf(s, tx.receiver)) == GameStands(c, s, tx, height, g)
  {
    hide CallContext, Authorised, StorageOf, CallMetadata, U.Xor;
    CallSees(c, s, tx, height);
  }

  // Whether a call of the game pays out: the stakes are there, and the gas.
  ghost predicate GamePays(c: Crypto, s: State, tx: Transaction, height: int, g: G.Game)
    requires tx.payload.ExecuteCode? && tx.payload.gasLimit.Some?
  {
    var v, limit := GameStands(c, s, tx, height, g), tx.payload.gasLimit.value;
    || (v.Flip? && limit >= 422 && Stakes(c, s, tx, height, g, g.one) && Stakes(c, s, tx, height, g, g.two))
    || (v == G.Forfeit(g.one) && limit >= 253 && Stakes(c, s, tx, height, g, g.two))
    || (v == G.Forfeit(g.two) && limit >= 261 && Stakes(c, s, tx, height, g, g.one))
  }

  // What a run of the game reports: the stake moves from the loser to the winner and the game is
  // settled, exactly when the call pays out.
  lemma GameRuns(c: Crypto, s: State, tx: Transaction, height: int, g: G.Game)
    requires NonNegative(s.balances) && tx.payload.ExecuteCode? && ExecuteError(s, tx).None?
    requires tx.fee >= 0.0 && G.Proper(g, tx.receiver) && CallRuns(s, tx, G.CoinflipProgram(g))
    ensures var e, v := Execution(c, s, tx, height), GameStands(c, s, tx, height, g);
            && (GamePays(c, s, tx, height, g) ==>
                  && e.success && Get(e.storage, "settled", 0) == 1
                  && forall a :: Bal(e.balanceChanges, a) == Shift(a, if v.winner == g.one then g.two else g.one, v.winner, g.amount))
            && (!GamePays(c, s, tx, height, g) && e.success ==> e.balanceChanges == map[])
  {
    hide Bal, NonNegative, Execution, U.Execute, CallContext, Spendable, G.CoinflipProgram, StorageOf, G.Judge, GameStands, U.InitialMemory;
    var balances := CallIsRun(c, s, tx, height, G.CoinflipProgram(g));
    var ctx, v := CallContext(c, s, tx, height), GameStands(c, s, tx, height, g);
    GameIsJudged(c, s, tx, height, g);
    CallSees(c, s, tx, height);
    FundsAreThere(s, tx, balances);
    WinnersPlay(c, s, tx, height, g);
    ChangesAreShifts(g, v);
    G.VerdictIsCarriedOut(ctx, g, tx.payload.gasLimit.value, StorageOf(s, tx.receiver), balances);
    StakesAreStakes(c, s, tx, height, g, balances, g.one);
    StakesAreStakes(c, s, tx, height, g, balances, g.two);
  }

  lemma FundsAreThere(s: State, tx: Transaction, balances: map<string, real>)
    requires NonNegative(s.balances) && tx.payload.ExecuteCode? && ExecuteError(s, tx).None?
    requires forall a :: Bal(balances, a) == Funds(s, tx, a)
    ensures NonNegative(balances)
  {
    hide Bal;
  }

  lemma WinnersPlay(c: Crypto, s: State, tx: Transaction, height: int, g: G.Game)
    ensures var v := GameStands(c, s, tx, height, g);
            v.Flip? || v.Forfeit? ==> v.winner == g.one || v.winner == g.two
  {
  }

  lemma ChangesAreShifts(g: G.Game, v: G.Verdict)
    requires g.one != g.two
    ensures (v.Flip? || v.Forfeit?) && (v.winner == g.one || v.winner == g.two) ==>
              forall a :: Bal(G.ChangesAfter(g, v), a) == Shift(a, if v.winner == g.one then g.two else g.one, v.winner, g.amount)
  {
  }

  lemma StakesAreStakes(c: Crypto, s: State, tx: Transaction, height: int, g: G.Game, balances: map<string, real>, wallet: string)
    requires tx.payload.ExecuteCode? && Bal(balances, wallet) == Funds(s, tx, wallet)
    ensures G.CanStake(CallContext(c, s, tx, height), g, balances, wallet) <==> Stakes(c, s, tx, height, g, wallet)
  {
    hide CallContext, Authorised, Bal;
    CallSees(c, s, tx, height);
  }

  // An accepted call of the game moves the stake from the loser to the winner and settles the game
  // exactly when it pays out; otherwise nobody but sender and contract sees a change.
  lemma GameOnChain(c: Crypto, s: State, tx: Transaction, height: int, g: G.Game, account: string)
    requires NonNegative(s.balances) && Apply(c, s, tx, height).Success? && !IsReward(tx) && tx.payload.ExecuteCode?
    requires G.Proper(g, tx.receiver) && CallRuns(s, tx, G.CoinflipProgram(g))
    ensures tx.payload.gasLimit.Some?
    ensures var r, v := Apply(c, s, tx, height).value, GameStands(c, s, tx, height, g);
            var loser := if v.Flip? || v.Forfeit? then (if v.winner == g.one then g.two else g.one) else "";
            && (GamePays(c, s, tx, height, g) ==>
                  && Stored(r.state, tx.receiver, "settled") == 1
                  && Bal(r.state.balances, account) == Bal(s.balances, account) + Shift(account, loser, v.winner, g.amount)
                       - To(account, tx.sender, r.feePaid + tx.amount) + To(account, tx.receiver, tx.amount))
            && (!GamePays(c, s, tx, height, g) && account != tx.sender && account != tx.receiver ==>
                  Bal(r.state.balances, account) == Bal(s.balances, account))
  {
    hide Bal, Apply, Execution, U.Execute, CallRuns, StorageOf, GamePays, GameStands, NonNegative, G.Proper;
    BalancesMove(c, s, tx, height);
    CallIsPriced(c, s, tx);
    FeesAreNotNegative(c, s, tx);
    OnlyRunsWriteStorage(c, s, tx, height, tx.receiver);
    GameRuns(c, s, tx, height, g);
    PayingGamesAreWon(c, s, tx, height, g);
    NothingYet();
  }

  lemma FeesAreNotNegative(c: Crypto, s: State, tx: Transaction)
    requires Admissible(c, s, tx)
    ensures tx.fee >= 0.0
  {
  }

  lemma PayingGamesAreWon(c: Crypto, s: State, tx: Transaction, height: int, g: G.Game)
    requires tx.payload.ExecuteCode? && tx.payload.gasLimit.Some?
    ensures GamePays(c, s, tx, height, g) ==> GameStands(c, s, tx, height, g).Flip? || GameStands(c, s, tx, height, g).Forfeit?
  {
    hide GameStands;
  }
}

/** Whole branches: whose signature stands behind every loss and every authorization. */
module Consent {
  import opened Base
  import opened Ledger
  import opened LedgerTheorems
  import opened LedgerAuthority
  import opened Blocks
  import BlockTheorems
  import opened BlockTree
  import opened Blockchains
  import opened RewardBranches
  import Uvm
  import UvmRules

  // ---- What a signature covers ------------------------------------------------------------

  // No other payload goes with the words the transaction is signed for.
  ghost predicate FixesPayload(tx: Transaction) {
    forall other: Transaction :: WordsOf(other) == WordsOf(tx) ==> other.payload == tx.payload
  }

  // Both say the same about who pays whom, how much and when.
  ghost predicate SameTransfer(tx: Transaction, other: Transaction) {
    && other.sender == tx.sender && other.receiver == tx.receiver && other.amount == tx.amount && other.fee == tx.fee
    && other.nonce == tx.nonce && other.timestamp == tx.timestamp
  }

  // Signed words fix sender, receiver, amount, fee, nonce and time in every version, and the kind
  // and its payload exactly from version 2 on; what is hashed fixes key and signature as well.
  lemma OnlyTypedSignaturesFixThePayload(tx: Transaction)
    ensures FixesPayload(tx) <==> tx.version != LEGACY_VERSION
    ensures forall other: Transaction :: WordsOf(other) == WordsOf(tx) ==> SameTransfer(tx, other)
    ensures forall other: Transaction :: HashedOf(other) == HashedOf(tx) ==>
              WordsOf(other) == WordsOf(tx) && other.publicKey == tx.publicKey && other.signature.GetOr("") == tx.signature.GetOr("")
  {
    if tx.version == LEGACY_VERSION {
      var other := tx.(payload := if tx.payload.TransferFunds? then OtherKind("") else TransferFunds);
      assert WordsOf(other) == WordsOf(tx);
    }
  }

  // A legacy signature is as good for any other kind and payload.
  lemma LegacySignaturesFitAnyPayload(c: Crypto, tx: Transaction, payload: Payload)
    requires tx.version == LEGACY_VERSION
    ensures AuthenticityError(c, tx.(payload := payload)) == AuthenticityError(c, tx)
    ensures forall wallet :: SignedBy(c, tx.(payload := payload), wallet) <==> SignedBy(c, tx, wallet)
  {
  }

  // The wallet's key has signed words that grant just what the authorization grants.
  ghost predicate SignedWordForWord(c: Crypto, a: Authorization) {
    exists key, signature, words: SignedWords ::
      c.signatureHolds(key, signature, words) && c.addressOf(key) == a.wallet
      && words.TypedWords? && words.sender == a.wallet && words.payload == Granting(a)
  }

  function Granting(a: Authorization): Payload {
    AuthorizeUse(a.contractAddress, Some(a.codeHash), a.requestId, Some(a.scope))
  }

  // A signed call without funds, in the legacy version, and a copy of it with another payload.
  const LEGACY_CALL: Transaction :=
    Transaction("wallet", "contract", 0.0, 0.0, 0, Some((3, 5)), Some("signature"),
                ExecuteCode("contract", Absent, Some(0), Some(0.0), false), "", LEGACY_VERSION)

  const LEGACY_COPY: Transaction := LEGACY_CALL.(payload := AuthorizeUse("contract", Some("code"), "request", Some(Uvm.Scope(None, None))))

  // When that call is all the wallet's key has ever signed, its copy still puts an authorization
  // on record.
  lemma LegacyCopyIsNotSignedWordForWord(c: Crypto, height: int)
    requires c.addressOf((3, 5)) == "wallet" && SignedBy(c, LEGACY_CALL, "wallet")
    requires forall key, signature, words :: c.signatureHolds(key, signature, words) ==> words == WordsOf(LEGACY_CALL)
    ensures var r := Apply(c, EMPTY_STATE, LEGACY_COPY, height);
            r.Success? && |r.value.state.authorizations| == 1 && r.value.state.authorizations[0].wallet == "wallet"
            && !SignedWordForWord(c, r.value.state.authorizations[0])
  {
    hide Charged;
    LegacySignaturesFitAnyPayload(c, LEGACY_CALL, LEGACY_COPY.payload);
    assert AuthorizeError(LEGACY_COPY, EMPTY_STATE).None?;
  }

  // ---- Signed transactions ----------------------------------------------------------------

  // Some signed transaction of the past authorises exactly what the authorization records.
  ghost predicate Consented(c: Crypto, past: seq<Transaction>, a: Authorization) {
    exists i :: 0 <= i < |past| && Authorizes(c, past[i], a)
  }

  ghost predicate Authorizes(c: Crypto, tx: Transaction, a: Authorization) {
    SignedBy(c, tx, a.wallet) && tx.payload == Granting(a)
  }

  ghost predicate AllConsented(c: Crypto, past: seq<Transaction>, log: seq<Authorization>) {
    forall i :: 0 <= i < |log| ==> Consented(c, past, log[i])
  }

  // Without legacy authorizations, consent is word for word.
  lemma TypedConsentIsWordForWord(c: Crypto, past: seq<Transaction>, a: Authorization)
    requires Consented(c, past, a) && NoLegacyAuthorizations(past)
    ensures SignedWordForWord(c, a)
  {
    var i :| 0 <= i < |past| && Authorizes(c, past[i], a);
    var words := WordsOf(past[i]);
    assert c.signatureHolds(past[i].publicKey.value, past[i].signature.value, words);
  }

  ghost predicate NoLegacyAuthorizations(txs: seq<Transaction>) {
    forall i :: 0 <= i < |txs| && txs[i].payload.AuthorizeUse? ==> txs[i].version != LEGACY_VERSION
  }

  // The transaction may make the account poorer: its sender signed it, and the account is the
  // sender, the deployed contract run, or a wallet whose signature holds for a transaction of the
  // past that carries an authorization of that contract and code.
  ghost predicate Answers(c: Crypto, past: seq<Transaction>, s: State, tx: Transaction, height: int, account: string) {
    && SignedBy(c, tx, tx.sender)
    && (|| account == tx.sender
        || (tx.payload.ExecuteCode? && account == tx.receiver && account in s.contracts)
        || (tx.payload.ExecuteCode? && HasConsented(c, past, s, tx, height, account)))
  }

  // The transaction answers for the loss, or it runs a program of its own at the account's address.
  ghost predicate Explains(c: Crypto, past: seq<Transaction>, s: State, tx: Transaction, height: int, account: string) {
    Answers(c, past, s, tx, height, account) || (SignedBy(c, tx, tx.sender) && InlineRunCosts(c, s, tx, height, account))
  }

  ghost predicate HasConsented(c: Crypto, past: seq<Transaction>, s: State, tx: Transaction, height: int, account: string)
    requires tx.payload.ExecuteCode?
  {
    exists a: Authorization :: Consented(c, past, a) && InForce(a, account, a.requestId, tx.receiver, TargetOf(c, s, tx).codeHash, height)
  }

  // ---- One transaction --------------------------------------------------------------------

  lemma ConsentLasts(c: Crypto, past: seq<Transaction>, more: seq<Transaction>, log: seq<Authorization>)
    requires AllConsented(c, past, log)
    ensures AllConsented(c, past + more, log)
  {
    forall i | 0 <= i < |log|
      ensures Consented(c, past + more, log[i])
    {
      var k :| 0 <= k < |past| && Authorizes(c, past[k], log[i]);
      assert (past + more)[k] == past[k];
    }
  }

  lemma ApplyAsksConsent(c: Crypto, past: seq<Transaction>, s: State, tx: Transaction, height: int)
    requires Apply(c, s, tx, height).Success? && AllConsented(c, past, s.authorizations)
    ensures AllConsented(c, past + [tx], Apply(c, s, tx, height).value.state.authorizations)
  {
    hide *;
    ConsentLasts(c, past, [tx], s.authorizations);
    AuthorizationsGrowBySignature(c, s, tx, height);
    NewIsConsented(c, past, tx, s.authorizations, Apply(c, s, tx, height).value.state.authorizations);
  }

  lemma NewIsConsented(c: Crypto, past: seq<Transaction>, tx: Transaction, log: seq<Authorization>, log': seq<Authorization>)
    requires AllConsented(c, past + [tx], log)
    requires log' == log || (|log'| == |log| + 1 && log' == log + [log'[|log|]] && Authorizes(c, tx, log'[|log|]))
    ensures AllConsented(c, past + [tx], log')
  {
    hide Authorizes;
    forall i | 0 <= i < |log'|
      ensures Consented(c, past + [tx], log'[i])
    {
      if i < |log| {
        assert log'[i] == log[i];
      } else {
        assert (past + [tx])[|past|] == tx;
      }
    }
  }

  lemma AuthorizationsGrowBySignature(c: Crypto, s: State, tx: Transaction, height: int)
    requires Apply(c, s, tx, height).Success?
    ensures var log, log' := s.authorizations, Apply(c, s, tx, height).value.state.authorizations;
            log' == log || (|log'| == |log| + 1 && log' == log + [log'[|log|]] && Authorizes(c, tx, log'[|log|]))
  {
    hide AuthenticityError, Execution, FuelFee, Executed, Bal, ApplyCommit, ApplyReveal, ApplyAuthorize, ApplyDeploy, Authorizes;
    if IsReward(tx) || tx.payload.TransferFunds? {
    } else if tx.payload.ExecuteCode? {
      var e := Execution(c, s, tx, height);
      ExecutedAddsNone(c, s, tx, e, FuelFee(tx, e.gasUsed));
    } else {
      RecordedKind(c, s, tx, height);
      if tx.payload.AuthorizeUse? {
        NewIsSigned(c, s, tx, height);
      } else {
        OtherKindsAddNone(c, s, tx);
      }
    }
  }

  lemma NewIsSigned(c: Crypto, s: State, tx: Transaction, height: int)
    requires tx.payload.AuthorizeUse? && !IsReward(tx) && AuthenticityError(c, tx).None? && ApplyAuthorize(s, tx, height).Success?
    ensures var log, log' := s.authorizations, ApplyAuthorize(s, tx, height).value.state.authorizations;
            |log'| == |log| + 1 && log' == log + [log'[|log|]] && Authorizes(c, tx, log'[|log|])
  {
    hide Bal;
  }

  lemma OtherKindsAddNone(c: Crypto, s: State, tx: Transaction)
    ensures tx.payload.CommitHash? && ApplyCommit(s, tx).Success? ==> ApplyCommit(s, tx).value.state.authorizations == s.authorizations
    ensures tx.payload.RevealSeed? && ApplyReveal(c, s, tx).Success? ==> ApplyReveal(c, s, tx).value.state.authorizations == s.authorizations
    ensures tx.payload.DeployCode? && ApplyDeploy(c, s, tx).Success? ==> ApplyDeploy(c, s, tx).value.state.authorizations == s.authorizations
  {
    hide Bal, Put, DeployError;
  }

  lemma ExecutedAddsNone(c: Crypto, s: State, tx: Transaction, e: Uvm.Execution, feePaid: real)
    ensures Executed(c, s, tx, e, feePaid).authorizations == s.authorizations
  {
    hide Credited, Merged, Get, Bal;
  }

  lemma LossIsExplained(c: Crypto, past: seq<Transaction>, s: State, tx: Transaction, height: int, account: string)
    requires NonNegative(s.balances) && Apply(c, s, tx, height).Success? && AllConsented(c, past, s.authorizations)
    requires Bal(Apply(c, s, tx, height).value.state.balances, account) < Bal(s.balances, account)
    ensures Explains(c, past, s, tx, height, account)
  {
    hide Apply, NonNegative, Bal, TargetOf, Consented, InForce, InlineRunCosts, SignedBy;
    NobodyElsePays(c, s, tx, height, account);
    if tx.payload.ExecuteCode? && HasAuthorized(c, s, tx, account, height) {
      RecordIsConsent(c, past, s, tx, height, account);
    }
  }

  lemma RecordIsConsent(c: Crypto, past: seq<Transaction>, s: State, tx: Transaction, height: int, account: string)
    requires tx.payload.ExecuteCode? && HasAuthorized(c, s, tx, account, height) && AllConsented(c, past, s.authorizations)
    ensures HasConsented(c, past, s, tx, height, account)
  {
    hide TargetOf, Consented, InForce;
    var hash := TargetOf(c, s, tx).codeHash;
    var request :| OnRecord(s.authorizations, account, request, tx.receiver, hash, height);
    var i :| 0 <= i < |s.authorizations| && InForce(s.authorizations[i], account, request, tx.receiver, hash, height);
    InForceNamesItsRequest(s.authorizations[i], account, request, tx.receiver, hash, height);
    assert Consented(c, past, s.authorizations[i]);
  }

  lemma InForceNamesItsRequest(a: Authorization, wallet: string, request: string, contractAddress: string, codeHash: string, height: int)
    requires InForce(a, wallet, request, contractAddress, codeHash, height)
    ensures a.requestId == request
  {
  }

  // ---- Sequences --------------------------------------------------------------------------

  lemma {:induction false} SequenceIsExplained(c: Crypto, past: seq<Transaction>, s: State, txs: seq<Transaction>, height: int)
    requires NonNegative(s.balances) && ApplyAll(c, s, txs, height).Success? && AllConsented(c, past, s.authorizations)
    ensures AllConsented(c, past + txs, ApplyAll(c, s, txs, height).value.state.authorizations)
    ensures forall account :: Bal(ApplyAll(c, s, txs, height).value.state.balances, account) < Bal(s.balances, account) ==>
              exists j :: 0 <= j < |txs| && Explains(c, past + txs[..j], BlockTheorems.Before(c, s, txs, j, height), txs[j], height, account)
  {
    hide Apply, NonNegative, Bal, AllConsented, Explains;
    if txs == [] {
      assert past + txs == past;
    } else {
      var n, before, tx := |txs| - 1, txs[..|txs| - 1], txs[|txs| - 1];
      SequenceIsExplained(c, past, s, before, height);
      BlockTheorems.SequenceConserves(c, s, before, height);
      var t := ApplyAll(c, s, before, height).value.state;
      assert BlockTheorems.Before(c, s, txs, n, height) == t;
      ApplyAsksConsent(c, past + before, t, tx, height);
      assert past + txs == past + before + [tx];
      forall account | Bal(ApplyAll(c, s, txs, height).value.state.balances, account) < Bal(s.balances, account)
        ensures exists j :: 0 <= j < |txs| && Explains(c, past + txs[..j], BlockTheorems.Before(c, s, txs, j, height), txs[j], height, account)
      {
        if Bal(t.balances, account) < Bal(s.balances, account) {
          var j :| 0 <= j < |before| && Explains(c, past + before[..j], BlockTheorems.Before(c, s, before, j, height), before[j], height, account);
          assert before[..j] == txs[..j] && before[j] == txs[j];
        } else {
          LossIsExplained(c, past + before, t, tx, height, account);
        }
      }
    }
  }

  // ---- Branches ---------------------------------------------------------------------------

  // Every authorization on record after a branch was carried, word for word, by a transaction of
  // that branch that its wallet signed.
  lemma {:induction false} EveryAuthorizationWasSigned(r: Rules, branch: seq<Block>)
    requires Replay(r, branch).Success?
    ensures AllConsented(r.crypto, BlockTheorems.Flatten(branch), Replay(r, branch).value.authorizations)
  {
    hide ApplyAll, HeaderError, GenesisError, AllConsented, NonNegative, Answers;
    var b, front := branch[|branch| - 1], branch[..|branch| - 1];
    var parent := if |branch| == 1 then EMPTY_STATE else Replay(r, front).value;
    if |branch| > 1 {
      EveryAuthorizationWasSigned(r, front);
      BlockTheorems.SupplyIsHeightTimesReward(r, front);
    } else {
      assert front == [];
      NothingOnRecord(r.crypto);
    }
    SequenceIsExplained(r.crypto, BlockTheorems.Flatten(front), parent.(height := b.id), b.transactions, b.id);
  }

  lemma NothingOnRecord(c: Crypto)
    ensures AllConsented(c, [], EMPTY_STATE.authorizations) && NonNegative(EMPTY_STATE.balances)
  {
  }

  // When no authorization of the branch is of the legacy version, the wallets have signed the very
  // words on record.
  lemma AuthorizationsAreSignedWordForWord(r: Rules, branch: seq<Block>)
    requires Replay(r, branch).Success? && NoLegacyAuthorizations(BlockTheorems.Flatten(branch))
    ensures var log := Replay(r, branch).value.authorizations; forall i :: 0 <= i < |log| ==> SignedWordForWord(r.crypto, log[i])
  {
    hide Replay, SignedWordForWord, Consented, NoLegacyAuthorizations;
    EveryAuthorizationWasSigned(r, branch);
    var log, past := Replay(r, branch).value.authorizations, BlockTheorems.Flatten(branch);
    forall i | 0 <= i < |log|
      ensures SignedWordForWord(r.crypto, log[i])
    {
      TypedConsentIsWordForWord(r.crypto, past, log[i]);
    }
  }

  // When a block leaves an account poorer, the block holds a transaction that explains it: signed
  // by the account itself, or a signed run of the account as a deployed contract, or a signed run
  // of a contract and code that the account authorised for this height by a transaction it signed
  // earlier on the same branch, or else a signed run of a program of its own at the account's address.
  lemma LossesAreExplained(r: Rules, branch: seq<Block>, account: string)
    requires |branch| > 1 && Replay(r, branch).Success?
    requires Bal(Replay(r, branch).value.balances, account) < Bal(Replay(r, branch[..|branch| - 1]).value.balances, account)
    ensures var b, front := branch[|branch| - 1], branch[..|branch| - 1];
            var start := Replay(r, front).value.(height := b.id);
            exists j :: 0 <= j < |b.transactions|
              && Explains(r.crypto, BlockTheorems.Flatten(front) + b.transactions[..j],
                          BlockTheorems.Before(r.crypto, start, b.transactions, j, b.id), b.transactions[j], b.id, account)
  {
    hide ApplyAll, HeaderError, GenesisError, AllConsented, NonNegative, Explains, Bal;
    var b, front := branch[|branch| - 1], branch[..|branch| - 1];
    EveryAuthorizationWasSigned(r, front);
    BlockTheorems.SupplyIsHeightTimesReward(r, front);
    SequenceIsExplained(r.crypto, BlockTheorems.Flatten(front), Replay(r, front).value.(height := b.id), b.transactions, b.id);
  }

  // Every contract run of the sequence names a contract that is deployed at its turn.
  ghost predicate RunsNameContracts(c: Crypto, s: State, txs: seq<Transaction>, height: int) {
    forall j :: 0 <= j < |txs| && txs[j].payload.ExecuteCode? ==> txs[j].receiver in BlockTheorems.Before(c, s, txs, j, height).contracts
  }

  // When the runs of a block name deployed contracts, money leaves only by consent.
  lemma MoneyLeavesOnlyByConsent(r: Rules, branch: seq<Block>, account: string)
    requires |branch| > 1 && Replay(r, branch).Success?
    requires Bal(Replay(r, branch).value.balances, account) < Bal(Replay(r, branch[..|branch| - 1]).value.balances, account)
    requires var b, front := branch[|branch| - 1], branch[..|branch| - 1];
             RunsNameContracts(r.crypto, Replay(r, front).value.(height := b.id), b.transactions, b.id)
    ensures var b, front := branch[|branch| - 1], branch[..|branch| - 1];
            var start := Replay(r, front).value.(height := b.id);
            exists j :: 0 <= j < |b.transactions|
              && Answers(r.crypto, BlockTheorems.Flatten(front) + b.transactions[..j],
                         BlockTheorems.Before(r.crypto, start, b.transactions, j, b.id), b.transactions[j], b.id, account)
  {
    hide ApplyAll, HeaderError, GenesisError, SlowChild, Answers, Bal, BlockTheorems.Before, SignedBy, Execution, ExecuteError;
    LossesAreExplained(r, branch, account);
    var b, front := branch[|branch| - 1], branch[..|branch| - 1];
    var start := Replay(r, front).value.(height := b.id);
    var j :| 0 <= j < |b.transactions|
             && Explains(r.crypto, BlockTheorems.Flatten(front) + b.transactions[..j],
                         BlockTheorems.Before(r.crypto, start, b.transactions, j, b.id), b.transactions[j], b.id, account);
  }

  // The sender signed the transaction, and the account is the sender, the deployed contract run, or a
  // wallet whose key signed the very words of an authorization of that contract and code.
  ghost predicate AnswersByWord(c: Crypto, s: State, tx: Transaction, height: int, account: string) {
    && SignedBy(c, tx, tx.sender)
    && (|| account == tx.sender
        || (tx.payload.ExecuteCode? && account == tx.receiver && account in s.contracts)
        || (tx.payload.ExecuteCode? && HasGranted(c, s, tx, height, account)))
  }

  ghost predicate HasGranted(c: Crypto, s: State, tx: Transaction, height: int, account: string)
    requires tx.payload.ExecuteCode?
  {
    exists a: Authorization :: SignedWordForWord(c, a) && InForce(a, account, a.requestId, tx.receiver, TargetOf(c, s, tx).codeHash, height)
  }

  lemma ConsentByWord(c: Crypto, past: seq<Transaction>, s: State, tx: Transaction, height: int, account: string)
    requires Answers(c, past, s, tx, height, account) && NoLegacyAuthorizations(past)
    ensures AnswersByWord(c, s, tx, height, account)
  {
    hide SignedBy, Consented, SignedWordForWord, InForce, TargetOf, NoLegacyAuthorizations;
    if tx.payload.ExecuteCode? && HasConsented(c, past, s, tx, height, account) {
      var a: Authorization :| Consented(c, past, a) && InForce(a, account, a.requestId, tx.receiver, TargetOf(c, s, tx).codeHash, height);
      TypedConsentIsWordForWord(c, past, a);
    }
  }

  lemma PastIsTyped(branch: seq<Block>, j: nat)
    requires branch != [] && NoLegacyAuthorizations(BlockTheorems.Flatten(branch)) && j <= |branch[|branch| - 1].transactions|
    ensures NoLegacyAuthorizations(BlockTheorems.Flatten(branch[..|branch| - 1]) + branch[|branch| - 1].transactions[..j])
  {
    var all := BlockTheorems.Flatten(branch);
    var past := BlockTheorems.Flatten(branch[..|branch| - 1]) + branch[|branch| - 1].transactions[..j];
    assert forall i :: 0 <= i < |past| ==> past[i] == all[i];
  }

  // When moreover no authorization of the branch is of the legacy version, money leaves an account
  // only by words its key has signed.
  lemma MoneyLeavesOnlyByWord(r: Rules, branch: seq<Block>, account: string)
    requires |branch| > 1 && Replay(r, branch).Success? && NoLegacyAuthorizations(BlockTheorems.Flatten(branch))
    requires Bal(Replay(r, branch).value.balances, account) < Bal(Replay(r, branch[..|branch| - 1]).value.balances, account)
    requires var b, front := branch[|branch| - 1], branch[..|branch| - 1];
             RunsNameContracts(r.crypto, Replay(r, front).value.(height := b.id), b.transactions, b.id)
    ensures var b, front := branch[|branch| - 1], branch[..|branch| - 1];
            var start := Replay(r, front).value.(height := b.id);
            exists j :: 0 <= j < |b.transactions|
              && AnswersByWord(r.crypto, BlockTheorems.Before(r.crypto, start, b.transactions, j, b.id), b.transactions[j], b.id, account)
  {
    hide ApplyAll, HeaderError, GenesisError, SlowChild, Answers, AnswersByWord, Bal, BlockTheorems.Before, NoLegacyAuthorizations, RunsNameContracts;
    MoneyLeavesOnlyByConsent(r, branch, account);
    var b, front := branch[|branch| - 1], branch[..|branch| - 1];
    var start := Replay(r, front).value.(height := b.id);
    var j :| 0 <= j < |b.transactions|
             && Answers(r.crypto, BlockTheorems.Flatten(front) + b.transactions[..j],
                        BlockTheorems.Before(r.crypto, start, b.transactions, j, b.id), b.transactions[j], b.id, account);
    PastIsTyped(branch, j);
    ConsentByWord(r.crypto, BlockTheorems.Flatten(front) + b.transactions[..j],
                  BlockTheorems.Before(r.crypto, start, b.transactions, j, b.id), b.transactions[j], b.id, account);
  }

  // ---- A wallet that pays without consent -------------------------------------------------

  // A program that moves five coins from the address it runs at to the caller.
  const COLLECT: Uvm.Program := [
    Uvm.Instruction(Uvm.PUSH, [Uvm.Operand.Word(5)]),
    Uvm.Instruction(Uvm.TRANSFER_FROM, [Uvm.Key(Uvm.CONTRACT_SELF), Uvm.Key("caller"), Uvm.Key("request")])
  ]

  const INLINE_CALL: Transaction :=
    Transaction("caller", "wallet", 0.0, 0.0, 0, Some((3, 5)), Some("signature"),
                ExecuteCode("wallet", Code(COLLECT), Some(100), Some(0.0), false), "", 2)

  lemma CollectRun(ctx: Uvm.Context, balances: map<string, real>)
    requires ctx.contractAddress == "wallet" && Bal(balances, "wallet") >= 5.0
    ensures var e := Uvm.Execute(Some(COLLECT), ctx, 100, map[], balances);
            e.success && e.error == None && Bal(e.balanceChanges, "wallet") == -5.0
  {
    hide Uvm.Run, Uvm.Step, Bal;
    var m := Uvm.InitialMemory(map[], balances);
    var m1 := UvmRules.Push(COLLECT, ctx, m, 0, 100, 5);
    assert m1 == m.(stack := [5]);
    var m2 := UvmRules.Pay(COLLECT, ctx, m1, 1, 99, Uvm.CONTRACT_SELF, "caller", "request");
    CollectEnds(ctx, m2);
    CollectMoves(m1);
  }

  // The call applies on the state of one reward to the wallet, for no fee.
  lemma InlineCallRuns(c: Crypto)
    requires SignedBy(c, INLINE_CALL, "caller")
    ensures var s := RewardTip("wallet", 1);
            && Apply(c, s, INLINE_CALL, 2).Success? && Apply(c, s, INLINE_CALL, 2).value.feePaid == 0.0
            && Bal(Apply(c, s, INLINE_CALL, 2).value.state.balances, "wallet") == 5.0
            && ExecuteError(s, INLINE_CALL).None? && Execution(c, s, INLINE_CALL, 2).error == None
            && InlineRunCosts(c, s, INLINE_CALL, 2, "wallet")
  {
    hide Uvm.Execute, Executed, AuthorizationsFor;
    var s := RewardTip("wallet", 1);
    assert ExecuteError(s, INLINE_CALL).None?;
    CollectRun(ExecutionContext(c, s, INLINE_CALL, TargetOf(c, s, INLINE_CALL), 2), EscrowedBalances(s, INLINE_CALL));
    var e := Execution(c, s, INLINE_CALL, 2);
    ExecutedBalances(c, s, INLINE_CALL, e, FuelFee(INLINE_CALL, e.gasUsed));
  }

  lemma CollectEnds(ctx: Uvm.Context, m: Uvm.Memory)
    ensures Uvm.Run(COLLECT, ctx, m, 2, 49) == Uvm.Final(Uvm.Completed, m, 2, 49)
  {
  }

  lemma CollectMoves(m: Uvm.Memory)
    requires m.stack == [5] && m.changes == map[]
    ensures Bal(Uvm.NonZero(Uvm.Booked(Uvm.Popped(m), Uvm.Transfer("wallet", "caller", 5, "request")).changes), "wallet") == -5.0
  {
    assert "wallet"[0] != "caller"[0];
  }

  lemma OnlyARewardHappened(r: Rules, branch: seq<Block>)
    requires RewardsOnly(r, branch, "wallet") && |branch| == 2
    ensures var past := BlockTheorems.Flatten(branch); |past| == 1 && IsReward(past[0]) && past[0].publicKey.None?
  {
    hide VerificationError, GenesisError;
    var genesis := branch[..1];
    assert Rewarding(r, branch[0], branch[1], 1, "wallet");
    assert genesis[..0] == [] && BlockTheorems.Flatten([]) == [];
    GenesisHoldsNothing(r, branch[0]);
    assert BlockTheorems.Flatten(genesis) == [];
  }

  lemma GenesisHoldsNothing(r: Rules, b: Block)
    requires GenesisError(r, b).None?
    ensures b.transactions == []
  {
  }

  lemma NobodyConsented(c: Crypto, past: seq<Transaction>, s: State, tx: Transaction, height: int, account: string)
    requires forall i :: 0 <= i < |past| ==> past[i].publicKey.None?
    requires tx.payload.ExecuteCode?
    ensures !HasConsented(c, past, s, tx, height, account)
  {
    hide TargetOf, InForce;
  }

  // On a state that every branch of one reward leads to, a signed call takes five coins from the
  // wallet that mined them, which has signed nothing, has authorised nothing and is no contract;
  // nothing answers for it.
  lemma ReceiverPaysWithoutConsent(r: Rules, branch: seq<Block>, past: seq<Transaction>)
    requires SignedBy(r.crypto, INLINE_CALL, "caller")
    requires RewardsOnly(r, branch, "wallet") && |branch| == 2 && past == BlockTheorems.Flatten(branch)
    ensures Replay(r, branch) == Success(RewardTip("wallet", 1))
    ensures var s := RewardTip("wallet", 1);
            && Apply(r.crypto, s, INLINE_CALL, 2).Success? && Bal(s.balances, "wallet") == 10.0
            && Bal(Apply(r.crypto, s, INLINE_CALL, 2).value.state.balances, "wallet") < Bal(s.balances, "wallet")
            && InlineRunCosts(r.crypto, s, INLINE_CALL, 2, "wallet")
            && !Answers(r.crypto, past, s, INLINE_CALL, 2, "wallet")
  {
    hide Execution, Executed, AuthorizationsFor, InlineRunCosts, Apply;
    RewardsOnlyReplays(r, branch, "wallet");
    var c, s := r.crypto, RewardTip("wallet", 1);
    InlineCallRuns(c);
    OnlyARewardHappened(r, branch);
    NobodyConsented(c, past, s, INLINE_CALL, 2, "wallet");
  }

  // ---- Records ----------------------------------------------------------------------------

  lemma {:induction false} SequenceKeepsSoundRecords(c: Crypto, s: State, txs: seq<Transaction>, height: int)
    requires ApplyAll(c, s, txs, height).Success? && SoundRecords(c, s, height)
    ensures SoundRecords(c, ApplyAll(c, s, txs, height).value.state, height)
  {
    hide Apply, SoundRecords;
    if txs != [] {
      var before := txs[..|txs| - 1];
      SequenceKeepsSoundRecords(c, s, before, height);
      ApplyKeepsSoundRecords(c, ApplyAll(c, s, before, height).value.state, txs[|txs| - 1], height);
    }
  }

  lemma LaterIsSound(c: Crypto, s: State, height: int)
    requires SoundRecords(c, s, s.height) && s.height <= height
    ensures SoundRecords(c, s.(height := height), height)
  {
    hide SoundEntries, SoundContract;
    SameRecordsAreSound(c, s, s.(height := height), s.height);
  }

  lemma NothingIsSound(c: Crypto)
    ensures SoundRecords(c, EMPTY_STATE, -1)
  {
  }

  // After every branch the records are sound: commitments and reveals of named wallets and
  // bounded requests, authorizations no younger than the block, contracts at the address derived
  // from deployer, nonce and code, with the hash of the program they hold and with storage.
  lemma {:induction false} RecordsAreSound(r: Rules, branch: seq<Block>)
    requires Replay(r, branch).Success?
    ensures SoundRecords(r.crypto, Replay(r, branch).value, Replay(r, branch).value.height)
  {
    hide ApplyAll, HeaderError, GenesisError, SoundRecords, NonNegative;
    var b, front := branch[|branch| - 1], branch[..|branch| - 1];
    BlockTheorems.SupplyIsHeightTimesReward(r, branch);
    if |branch| > 1 {
      RecordsAreSound(r, front);
      BlockTheorems.SupplyIsHeightTimesReward(r, front);
      LaterIsSound(r.crypto, Replay(r, front).value, b.id);
      SequenceKeepsSoundRecords(r.crypto, Replay(r, front).value.(height := b.id), b.transactions, b.id);
    } else {
      NothingIsSound(r.crypto);
      LaterIsSound(r.crypto, EMPTY_STATE, b.id);
      SequenceKeepsSoundRecords(r.crypto, EMPTY_STATE.(height := b.id), b.transactions, b.id);
    }
  }

  // Every state a chain has stored has sound records, and each authorization in it was signed on
  // the block's branch.
  lemma StoredRecordsAreSigned(chain: Blockchain, h: string)
    requires chain.Valid() && h in chain.blocks
    ensures h in chain.Views() && Rooted(chain.blocks)
    ensures SoundRecords(chain.rules.crypto, chain.Views()[h], chain.blocks[h].id)
    ensures AllConsented(chain.rules.crypto, BlockTheorems.Flatten(Branch(chain.blocks, h)), chain.Views()[h].authorizations)
  {
    hide SoundRecords, AllConsented, Replay, Rooted, NonNegative, BlockTheorems.Flatten, Blockchain.Valid, Blockchain.Views;
    StoredStatesAreSound(chain, h);
    RecordsAreSound(chain.rules, Branch(chain.blocks, h));
    EveryAuthorizationWasSigned(chain.rules, Branch(chain.blocks, h));
  }
}

/** When the reward spoils the block: a contract run that stops for want of the miner's coins while
    fees are counted, and goes on once the reward is there. */
module SpoiledBlocks {
  import opened Base
  import opened Ledger
  import opened LedgerTheorems
  import opened Blocks
  import opened BlockTheorems
  import opened Mempool
  import opened BlockAssembly
  import opened RewardBranches
  import U = Uvm
  import R = UvmRules

  // ---- The first run that stops -----------------------------------------------------------

  // The fee does not depend on the state: only a run with a gas price pays for what it used.
  predicate FixedFee(tx: Transaction) {
    !IsReward(tx) && (tx.payload.ExecuteCode? && tx.payload.gasPrice.Some? ==> tx.payload.gasPrice.value <= 0.0)
  }

  predicate AllFixed(txs: seq<Transaction>) {
    forall i :: 0 <= i < |txs| ==> FixedFee(txs[i])
  }

  lemma FixedFeeIsPaid(c: Crypto, s: State, tx: Transaction, height: int)
    requires FixedFee(tx) && Apply(c, s, tx, height).Success?
    ensures Apply(c, s, tx, height).value.feePaid == tx.fee
  {
    hide Executed, Execution, Charged, Credited, Put, Bal, CommitError, RevealError, AuthorizeError, DeployError;
  }

  lemma {:induction false} FixedFeesAreEqual(c: Crypto, s: State, s': State, txs: seq<Transaction>, height: int)
    requires AllFixed(txs) && ApplyAll(c, s, txs, height).Success? && ApplyAll(c, s', txs, height).Success?
    ensures ApplyAll(c, s, txs, height).value.feePaid == ApplyAll(c, s', txs, height).value.feePaid
  {
    hide Apply, FixedFee;
    if txs != [] {
      var front, last := txs[..|txs| - 1], txs[|txs| - 1];
      FixedFeesAreEqual(c, s, s', front, height);
      FixedFeeIsPaid(c, ApplyAll(c, s, front, height).value.state, last, height);
      FixedFeeIsPaid(c, ApplyAll(c, s', front, height).value.state, last, height);
    }
  }

  // The state in which the next transaction runs, without and with the reward.
  ghost function Unrewarded(c: Crypto, tip: State, before: seq<Transaction>): State {
    var r := OnTip(c, tip, before);
    if r.Success? then r.value.state else tip
  }

  ghost function WithReward(c: Crypto, tip: State, before: seq<Transaction>, reward: Transaction): State {
    var r := ApplyAll(c, tip.(height := tip.height + 1), [reward] + before, tip.height + 1);
    if r.Success? then r.value.state else tip
  }

  // A run that applies without the reward also applies with it, for what it then uses.
  lemma RunApplies(c: Crypto, poor: State, rich: State, tx: Transaction, height: int, who: string, amount: real)
    requires RicherState(poor, rich, who, amount) && tx.payload.ExecuteCode? && Apply(c, poor, tx, height).Success? && !IsReward(tx)
    ensures ExecuteError(poor, tx).None? && ExecuteError(rich, tx).None? && Apply(c, rich, tx, height).Success?
    ensures Apply(c, poor, tx, height).value.feePaid == FuelFee(tx, Execution(c, poor, tx, height).gasUsed)
    ensures Apply(c, rich, tx, height).value.feePaid == FuelFee(tx, Execution(c, rich, tx, height).gasUsed)
  {
    hide Executed, Execution, AuthenticityError;
  }

  // What the transactions of a block pay, when a run that follows steady ones is followed by fixed
  // fees only: with and without the reward it differs by what that run pays.
  lemma FeesDifferByTheRun(c: Crypto, tip: State, before: seq<Transaction>, tx: Transaction, after: seq<Transaction>, reward: Transaction)
    requires IsReward(reward) && reward.publicKey.None? && reward.signature.None? && reward.fee == 0.0
    requires reward.receiver != "" && reward.amount > 0.0
    requires Replayable(c, tip, before + [tx] + after) && SteadyAll(c, tip, before, tip.height + 1, reward.receiver) && AllFixed(after)
    requires tx.payload.ExecuteCode?
    ensures var h, poor, rich := tip.height + 1, Unrewarded(c, tip, before), WithReward(c, tip, before, reward);
            var block := ApplyAll(c, tip.(height := h), [reward] + (before + [tx] + after), h);
            && ExecuteError(poor, tx).None? && ExecuteError(rich, tx).None? && Apply(c, rich, tx, h).Success?
            && RicherState(poor, rich, reward.receiver, reward.amount)
            && (block.Success? <==> ApplyAll(c, Apply(c, rich, tx, h).value.state, after, h).Success?)
            && (block.Success? ==>
                  block.value.feePaid == OnTip(c, tip, before + [tx] + after).value.feePaid
                    + (FuelFee(tx, Execution(c, rich, tx, h).gasUsed) - FuelFee(tx, Execution(c, poor, tx, h).gasUsed)))
  {
    hide Apply, ApplyAll, RicherState, SteadyAll, Execution, ExecuteError, FixedFee, AllFixed, FuelFee;
    var h, start := tip.height + 1, tip.(height := tip.height + 1);
    var selected := before + [tx] + after;
    PartsApply(c, tip, before, tx, after, h);
    NoRewardsInParts(before, tx, after);
    RewardApplies(c, tip, reward);
    var credited := ApplyAll(c, start, [reward], h).value.state;
    SequenceKeepsRicher(c, tip, credited, before, h, reward.receiver, reward.amount);
    ApplyAllAppend(c, start, [reward], before, h);
    var poor, rich := Unrewarded(c, tip, before), WithReward(c, tip, before, reward);
    HasPrice(poor, tx);
    RunApplies(c, poor, rich, tx, h, reward.receiver, reward.amount);
    var full := [reward] + before;
    JustOne(c, rich, tx, h);
    ApplyAllAppend(c, start, full, [tx], h);
    var richer := Apply(c, rich, tx, h).value.state;
    ApplyAllAppend(c, start, full + [tx], after, h);
    assert [reward] + selected == full + [tx] + after;
    if ApplyAll(c, richer, after, h).Success? {
      FixedFeesAreEqual(c, Apply(c, poor, tx, h).value.state, richer, after, h);
    }
  }

  lemma HasPrice(s: State, tx: Transaction)
    requires tx.payload.ExecuteCode?
    ensures ExecuteError(s, tx).None? ==> tx.payload.gasPrice.Some?
  {
  }

  lemma NothingToApply(c: Crypto, s: State, height: int)
    ensures ApplyAll(c, s, [], height) == Success(Applied(s, 0.0))
  {
  }

  lemma NoRewardsInParts(before: seq<Transaction>, tx: Transaction, after: seq<Transaction>)
    requires NoRewards(before + [tx] + after)
    ensures NoRewards(before) && !IsReward(tx)
  {
    var all := before + [tx] + after;
    assert all[|before|] == tx;
    assert forall i :: 0 <= i < |before| ==> all[i] == before[i];
  }

  lemma PartsApply(c: Crypto, s: State, before: seq<Transaction>, tx: Transaction, after: seq<Transaction>, height: int)
    requires ApplyAll(c, s, before + [tx] + after, height).Success?
    ensures ApplyAll(c, s, before, height).Success?
    ensures var poor := ApplyAll(c, s, before, height).value;
            && Apply(c, poor.state, tx, height).Success?
            && var ran := Apply(c, poor.state, tx, height).value;
               && ApplyAll(c, ran.state, after, height).Success?
               && ApplyAll(c, s, before + [tx] + after, height).value.feePaid
                  == poor.feePaid + ran.feePaid + ApplyAll(c, ran.state, after, height).value.feePaid
  {
    hide Apply, ApplyAll;
    var all := before + [tx] + after;
    assert all[..|before|] == before && all[..|before| + 1] == before + [tx];
    if ApplyAll(c, s, before, height).Failure? {
      FailureSticks(c, s, all, |before|, height);
    }
    if ApplyAll(c, s, before + [tx], height).Failure? {
      FailureSticks(c, s, all, |before| + 1, height);
    }
    var poor := ApplyAll(c, s, before, height).value.state;
    JustOne(c, poor, tx, height);
    ApplyAllAppend(c, s, before, [tx], height);
    ApplyAllAppend(c, s, before + [tx], after, height);
  }

  // The first run that stops on the miner's balance, when the fees after it are fixed, decides on
  // the block: it is accepted exactly when that run pays the same with the reward as without, and
  // what follows still applies after it. A run with a gas price pays the same exactly when it uses
  // as much gas; a run without one always does.
  lemma FirstStoppedRunDecides(r: Rules, tip: State, tipHash: string, before: seq<Transaction>, tx: Transaction, after: seq<Transaction>,
                               miner: string, description: string, timestamp: string, seal: Seal)
    requires tip.height >= 0 && miner != "" && Replayable(r.crypto, tip, before + [tx] + after) && |before| + 1 + |after| <= MAX_SELECTED
    requires SteadyAll(r.crypto, tip, before, tip.height + 1, miner) && AllFixed(after) && tx.payload.ExecuteCode?
    ensures var c, h, selected := r.crypto, tip.height + 1, before + [tx] + after;
            var fees := OnTip(c, tip, selected).value.feePaid;
            var poor, rich := Unrewarded(c, tip, before), WithReward(c, tip, before, RewardTransaction(miner, fees, timestamp));
            var b := MinedBlock(h, tipHash, selected, fees, miner, description, timestamp, seal);
            && ExecuteError(poor, tx).None? && ExecuteError(rich, tx).None? && RicherState(poor, rich, miner, MINING_REWARD + fees)
            && tx.payload.gasPrice.Some? && Apply(c, rich, tx, h).Success?
            && var same := tx.payload.gasPrice.value <= 0.0 || Execution(c, rich, tx, h).gasUsed == Execution(c, poor, tx, h).gasUsed;
               var goesOn := ApplyAll(c, Apply(c, rich, tx, h).value.state, after, h).Success?;
               && (VerificationError(r, b).None? ==> (BuildChild(r, b, tip).Success? <==> same && goesOn))
               && (VerificationError(r, b).None? && goesOn && !same ==> BuildChild(r, b, tip) == Failure(WrongRewardAmount))
               && (after == [] ==> goesOn)
  {
    hide Apply, ApplyAll, RicherState, SteadyAll, Rewards, NoRewards, VerificationError, Execution, ExecuteError, FixedFee, AllFixed,
         Unrewarded, WithReward;
    var c, h, selected := r.crypto, tip.height + 1, before + [tx] + after;
    var fees := OnTip(c, tip, selected).value.feePaid;
    FeesAreNotNegative(c, tip, selected, h);
    var reward := RewardTransaction(miner, fees, timestamp);
    FeesDifferByTheRun(c, tip, before, tx, after, reward);
    var b := MinedBlock(h, tipHash, selected, fees, miner, description, timestamp, seal);
    OnlyOneReward(reward, selected);
    BuildChildIsSlowChild(r, b, tip);
    var poor, rich := Unrewarded(c, tip, before), WithReward(c, tip, before, reward);
    HasPrice(poor, tx);
    if tx.payload.gasPrice.value > 0.0 {
      PricesTell(Execution(c, rich, tx, h).gasUsed, Execution(c, poor, tx, h).gasUsed, tx.payload.gasPrice.value);
    }
    NothingToApply(c, Apply(c, rich, tx, h).value.state, h);
  }

  lemma PricesTell(used: nat, other: nat, price: real)
    requires price > 0.0
    ensures used as real * price == other as real * price <==> used == other
  {
    if used < other {
      assert (other - used) as real * price > 0.0;
    } else if used > other {
      assert (used - other) as real * price > 0.0;
    }
  }

  // ---- A selection that the reward spoils -------------------------------------------------

  // A contract that tries to take five coins from the miner and then does one thing more.
  const GREEDY: U.Program := [
    U.Instruction(U.PUSH, [U.Operand.Word(5)]),
    U.Instruction(U.TRANSFER_FROM, [U.Key("miner"), U.Key("friend"), U.Key("request")]),
    U.Instruction(U.PUSH, [U.Operand.Word(1)])
  ]

  const GREEDY_CALL: Transaction :=
    Transaction("miner", "contract", 0.0, 100.0, 0, Some((3, 5)), Some("signature"),
                ExecuteCode("contract", Code(GREEDY), Some(100), Some(1.0), false), "", 2)

  // After ten rewards the miner can pay the fee and nothing else.
  const POOR_TIP: State := RewardTip("miner", 10)

  lemma GreedyRun(ctx: U.Context, balances: map<string, real>)
    requires ctx.txSender == "miner"
    ensures var e := U.Execute(Some(GREEDY), ctx, 100, map[], balances);
            if Bal(balances, "miner") < 5.0 then e.error == Some(U.SourceBalanceTooLow("miner")) && e.gasUsed == 51
            else e.success && e.gasUsed == 52
  {
    hide U.Run, U.Step, Bal;
    var m := U.InitialMemory(map[], balances);
    var m1 := R.Push(GREEDY, ctx, m, 0, 100, 5);
    assert m1 == m.(stack := [5]);
    if Bal(balances, "miner") < 5.0 {
      Overdrawn(ctx, m1);
    } else {
      var m2 := R.Pay(GREEDY, ctx, m1, 1, 99, "miner", "friend", "request");
      var m3 := R.Push(GREEDY, ctx, m2, 2, 49, 1);
      RunsOff(GREEDY, ctx, m3, 48);
    }
  }

  lemma Overdrawn(ctx: U.Context, m: U.Memory)
    requires ctx.txSender == "miner" && m.stack == [5] && Bal(m.balances, "miner") < 5.0
    ensures var f := U.Run(GREEDY, ctx, m, 1, 99);
            f.ending == U.Trapping(U.Error(U.SourceBalanceTooLow("miner"))) && f.gas == 49
  {
    hide Bal;
    assert "request" != "" && "friend" != "" && "miner" != "";
  }

  lemma RunsOff(p: U.Program, ctx: U.Context, m: U.Memory, gas: nat)
    ensures U.Run(p, ctx, m, |p|, gas) == U.Final(U.Completed, m, |p|, gas)
  {
  }

  // A tip and a selection that applies to it, from which no block can be assembled: the miner's
  // own call stops early for want of coins when fees are counted, goes on once the reward is
  // there, and then pays a fee the reward does not contain.
  lemma RewardMaySpoilTheBlock(r: Rules, tipHash: string, description: string, timestamp: string, seal: Seal)
    requires SignedBy(r.crypto, GREEDY_CALL, "miner")
    ensures forall branch :: RewardsOnly(r, branch, "miner") && |branch| == 11 ==> Replay(r, branch) == Success(POOR_TIP)
    ensures Replayable(r.crypto, POOR_TIP, [GREEDY_CALL])
    ensures var fees := OnTip(r.crypto, POOR_TIP, [GREEDY_CALL]).value.feePaid;
            var b := MinedBlock(POOR_TIP.height + 1, tipHash, [GREEDY_CALL], fees, "miner", description, timestamp, seal);
            fees == 51.0 && BuildChild(r, b, POOR_TIP).Failure?
            && (VerificationError(r, b).None? ==> BuildChild(r, b, POOR_TIP) == Failure(WrongRewardAmount))
  {
    hide VerificationError, Executed, AuthorizationsFor, U.Execute, ApplyAll, RewardsOnly, Replay, FastChild, ExecuteError;
    var c, h := r.crypto, POOR_TIP.height + 1;
    PoorTipIsReached(r);
    GreedyCallApplies(c, POOR_TIP, h);
    JustOne(c, POOR_TIP, GREEDY_CALL, h);
    var reward := RewardTransaction("miner", 51.0, timestamp);
    RewardApplies(c, POOR_TIP, reward);
    var start := POOR_TIP.(height := h);
    var credited := ApplyAll(c, start, [reward], h).value.state;
    GreedyCallApplies(c, credited, h);
    JustOne(c, credited, GREEDY_CALL, h);
    ApplyAllAppend(c, start, [reward], [GREEDY_CALL], h);
    var b := MinedBlock(POOR_TIP.height + 1, tipHash, [GREEDY_CALL], 51.0, "miner", description, timestamp, seal);
    OnlyOneReward(reward, [GREEDY_CALL]);
    BuildChildIsSlowChild(r, b, POOR_TIP);
  }

  lemma PoorTipIsReached(r: Rules)
    ensures forall branch :: RewardsOnly(r, branch, "miner") && |branch| == 11 ==> Replay(r, branch) == Success(POOR_TIP)
  {
    hide RewardsOnly, Replay;
    forall branch | RewardsOnly(r, branch, "miner") && |branch| == 11
      ensures Replay(r, branch) == Success(POOR_TIP)
    {
      RewardsOnlyReplays(r, branch, "miner");
    }
  }

  lemma JustOne(c: Crypto, s: State, tx: Transaction, height: int)
    ensures ApplyAll(c, s, [tx], height) == match Apply(c, s, tx, height)
              case Failure(e) => Failure(e)
              case Success(a) => Success(a)
  {
    hide Apply;
    assert [tx][..0] == [];
    assert ApplyAll(c, s, [], height) == Success(Applied(s, 0.0));
  }

  lemma GreedyCallApplies(c: Crypto, s: State, height: int)
    requires SignedBy(c, GREEDY_CALL, "miner")
    requires s.contracts == map[] && s.contractStorage == map[] && s.nonces == map[] && Bal(s.balances, "miner") >= 100.0
    ensures var r := Apply(c, s, GREEDY_CALL, height);
            r.Success? && r.value.feePaid == if Bal(s.balances, "miner") < 105.0 then 51.0 else 52.0
  {
    hide U.Execute, Executed, AuthorizationsFor;
    var tx := GREEDY_CALL;
    assert ExecuteError(s, tx).None?;
    var target := TargetOf(c, s, tx);
    GreedyRun(ExecutionContext(c, s, tx, target, height), EscrowedBalances(s, tx));
  }
}

/** Branches of blocks that hold nothing but their reward: states that every node can reach. */
module RewardBranches {
  import opened Base
  import opened Ledger
  import opened LedgerTheorems
  import opened Blocks
  import opened BlockTheorems

  // Genesis, then blocks that verify, follow each other and reward the same miner.
  ghost predicate RewardsOnly(r: Rules, branch: seq<Block>, miner: string) {
    && branch != [] && GenesisError(r, branch[0]).None? && VerificationError(r, branch[0]).None?
    && forall i :: 0 < i < |branch| ==> Rewarding(r, branch[i - 1], branch[i], i, miner)
  }

  ghost predicate Rewarding(r: Rules, parent: Block, b: Block, height: nat, miner: string) {
    && b.id == height && b.previousHash == parent.hash && b.previousHash != GENESIS_PREVIOUS_HASH
    && VerificationError(r, b).None?
    && |b.transactions| == 1 && b.transactions[0] == RewardTransaction(miner, 0.0, b.transactions[0].timestamp)
  }

  // What such a branch leads to: the miner holds all the rewards, and there is nothing else.
  function RewardTip(miner: string, height: nat): State {
    EMPTY_STATE.(balances := if height == 0 then map[] else map[miner := height as real * MINING_REWARD], height := height)
  }

  lemma {:induction false} RewardsOnlyReplays(r: Rules, branch: seq<Block>, miner: string)
    requires RewardsOnly(r, branch, miner) && miner != ""
    ensures Replay(r, branch) == Success(RewardTip(miner, |branch| - 1))
  {
    hide VerificationError, SlowChild, HeaderError, GenesisError;
    if |branch| == 1 {
      GenesisIsStart(r, branch[0]);
    } else {
      var n, front, b := |branch| - 1, branch[..|branch| - 1], branch[|branch| - 1];
      RewardsOnlyReplays(r, front, miner);
      assert Rewarding(r, branch[n - 1], b, n, miner);
      RewardIsAdded(r, branch[n - 1], b, n, miner);
    }
  }

  lemma GenesisIsStart(r: Rules, b: Block)
    requires GenesisError(r, b).None? && VerificationError(r, b).None?
    ensures HeaderError(r, b).None? && SlowChild(r, b, EMPTY_STATE) == Success(EMPTY_STATE.(height := 0))
    ensures b.previousHash == GENESIS_PREVIOUS_HASH
  {
    hide VerificationError;
    GenesisState(r, b);
  }

  lemma RewardIsAdded(r: Rules, parent: Block, b: Block, n: nat, miner: string)
    requires n > 0 && Rewarding(r, parent, b, n, miner) && miner != ""
    ensures HeaderError(r, b).None? && SlowChild(r, b, RewardTip(miner, n - 1)) == Success(RewardTip(miner, n))
  {
    hide VerificationError, SlowChild;
    assert b.transactions == [RewardTransaction(miner, 0.0, b.transactions[0].timestamp)];
    OneReward(b);
    FastPathIsSlowPath(r, b, RewardTip(miner, n - 1));
    assert n as real * MINING_REWARD == (n - 1) as real * MINING_REWARD + MINING_REWARD;
    assert Credited(RewardTip(miner, n - 1).balances, miner, MINING_REWARD) == RewardTip(miner, n).balances;
    assert HeaderError(r, b).None?;
    assert FastChild(r, b, RewardTip(miner, n - 1)).Some?;
  }

  lemma OneReward(b: Block)
    requires |b.transactions| == 1 && IsReward(b.transactions[0])
    ensures Rewards(b.transactions) == b.transactions
  {
    assert b.transactions[1..] == [];
  }

  // ---- There are such branches ------------------------------------------------------------

  // A tally of the height, longer than the hash of genesis.
  function Tally(height: nat): (hash: string)
    ensures |hash| == 64 + height
  {
    seq(64 + height, _ => '1')
  }

  // Hashes that tell heights apart, and no difficulty.
  function TalliedRules(c: Crypto): Rules {
    Rules(c, (w: BlockWords) => if w.id <= 0 then GENESIS_HASH else Tally(w.id), (hash: string, height: int) => true)
  }

  function Genesis(): Block {
    Block(0, [], GENESIS_DESCRIPTION, GENESIS_PREVIOUS_HASH, GENESIS_NONCE, GENESIS_HASH)
  }

  function Rewarded(miner: string, n: nat): (branch: seq<Block>)
    ensures |branch| == n + 1
  {
    if n == 0 then [Genesis()] else
    var front := Rewarded(miner, n - 1);
    front + [Block(n, [RewardTransaction(miner, 0.0, "")], "", front[n - 1].hash, 0, Tally(n))]
  }

  lemma GenesisHashes()
    ensures |GENESIS_HASH| == 64 && |GENESIS_PREVIOUS_HASH| == 64 && GENESIS_HASH != GENESIS_PREVIOUS_HASH
  {
    assert GENESIS_HASH[62] != GENESIS_PREVIOUS_HASH[62];
  }

  lemma {:induction false} RewardedIsRewardsOnly(c: Crypto, miner: string, n: nat)
    ensures RewardsOnly(TalliedRules(c), Rewarded(miner, n), miner) && DistinctlyHashed(Rewarded(miner, n))
    ensures forall i :: 0 <= i <= n ==> Rewarded(miner, n)[i].hash == if i == 0 then GENESIS_HASH else Tally(i)
  {
    GenesisHashes();
    if n > 0 {
      RewardedIsRewardsOnly(c, miner, n - 1);
      var r, front, branch := TalliedRules(c), Rewarded(miner, n - 1), Rewarded(miner, n);
      assert branch == front + [branch[n]];
      forall i | 0 < i < |branch|
        ensures Rewarding(r, branch[i - 1], branch[i], i, miner)
      {
        assert branch[i - 1] == front[i - 1];
        if i < n {
          assert branch[i] == front[i];
          assert Rewarding(r, front[i - 1], front[i], i, miner);
        }
      }
    }
  }
}

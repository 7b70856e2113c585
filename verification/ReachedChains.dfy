/** Chains that sit on a branch of rewards, and the surprising inputs on them. */
module ReachedChains {
  import opened Base
  import opened Ledger
  import opened LedgerTheorems
  import opened Blocks
  import opened BlockTheorems
  import opened BlockTree
  import opened Mempool
  import opened BlockAssembly
  import opened Blockchains
  import opened RewardBranches
  import opened Storage
  import opened SpoiledBlocks
  import opened HashedBlocks
  import Consent
  import ChainStates
  import Uvm

  // The chain holds the branch of rewards and nothing else.
  ghost predicate OnRewards(chain: Blockchain, r: Rules, branch: seq<Block>, miner: string)
    reads chain, chain.repr
  {
    && branch != [] && chain.Valid() && chain.rules == r && chain.pending == []
    && HoldsHashesOf(chain.blocks, branch)
    && chain.mainTip == Some(branch[|branch| - 1].hash) && branch[|branch| - 1].hash in chain.blocks
    && chain.TipState() == RewardTip(miner, |branch| - 1)
  }

  // An empty chain to which the blocks of the branch are added.
  method ChainOnRewards(r: Rules, branch: seq<Block>, miner: string) returns (chain: Blockchain)
    requires RewardsOnly(r, branch, miner) && DistinctlyHashed(branch) && miner != ""
    ensures fresh(chain) && OnRewards(chain, r, branch, miner)
  {
    hide RewardsOnly, DistinctlyHashed, Built, Replay, Blockchain.Valid, Blockchain.Owned, Blockchain.Views, HoldsHashesOf, Rooted, OnTip;
    RewardsAreNotEmpty(r, branch, miner);
    RewardsOnlyReplays(r, branch, miner);
    NothingOnTip(r.crypto, RewardTip(miner, |branch| - 1));
    EmptyPoolLoads(r, branch);
    var loaded := Load(r, SavedChain(branch, []));
    chain := loaded;
    TipOfBuilt(r, chain.blocks, chain.Views(), chain.mainTip, branch);
  }

  lemma EmptyPoolLoads(r: Rules, branch: seq<Block>)
    requires Replay(r, branch).Success? && DistinctlyHashed(branch)
    ensures Loadable(r, SavedChain(branch, []))
  {
    hide Replay, DistinctlyHashed;
    NothingOnTip(r.crypto, Replay(r, branch).value);
  }

  lemma RewardsAreNotEmpty(r: Rules, branch: seq<Block>, miner: string)
    requires RewardsOnly(r, branch, miner)
    ensures branch != []
  {
  }

  lemma PartOfOne(s: seq<Transaction>, tx: Transaction)
    requires multiset(s) <= multiset{tx}
    ensures s == [] || s == [tx]
  {
    var rest := multiset{tx} - multiset(s);
    assert rest + multiset(s) == multiset{tx};
    assert |rest| + |s| == 1;
    assert s != [] ==> s[0] in multiset(s);
  }

  // A pool of one transaction that applies is selected as it is.
  lemma OnlyOneToSelect(c: Crypto, tip: State, tx: Transaction)
    requires Replayable(c, tip, [tx])
    ensures Selected(c, tip, [tx]) == [tx]
  {
    hide Selected, OnTip;
    var selected := Selected(c, tip, [tx]);
    SelectedIsMaximal(c, tip, [tx]);
    PartOfOne(selected, tx);
    assert [] + [tx] == [tx] && (selected == [] ==> tx in multiset([tx]) - multiset(selected));
  }

  // The head of a branch of rewards that more can be put on.
  ghost predicate Extensible(branch: seq<Block>, seal: Seal) {
    branch != [] && branch[|branch| - 1].hash != GENESIS_PREVIOUS_HASH && !HashAmong(branch, seal.hash)
  }

  // What the chain says of a block on its main tip.
  lemma VerdictOnTip(chain: Blockchain, b: Block)
    requires chain.Valid() && chain.mainTip == Some(b.previousHash) && b.id == chain.TipState().height + 1 && b.id != 0
    ensures BuildChild(chain.rules, b, chain.TipState()).Failure? ==> chain.Verdict(b) != Accepted
    ensures b.previousHash != GENESIS_PREVIOUS_HASH && b.hash !in chain.blocks ==>
              chain.Verdict(b) == match BuildChild(chain.rules, b, chain.TipState())
                case Failure(e) => Invalid(e)
                case Success(_) => Accepted
    ensures b.previousHash != GENESIS_PREVIOUS_HASH && b.hash !in chain.blocks && BuildChild(chain.rules, b, chain.TipState()).Success? ==>
              Extend(chain.rules, b, Known(chain.Views(), b)) == BuildChild(chain.rules, b, chain.TipState())
  {
    hide Cached, ChildrenListed, NoRewards, TipIsHighest, BuildChild, ChainStates.ChainState.Objects, ChainStates.ChainState.Parts,
         ChainStates.ChainState.View, Rooted;
    TreeFacts(chain.rules, chain.blocks, chain.Views(), chain.mainTip);
    ExtendCases(chain.rules, b, Some(chain.TipState()));
  }

  lemma NextIsHigher(chain: Blockchain, b: Block)
    requires chain.Valid() && chain.mainTip.Some? && b.id == chain.TipState().height + 1
    ensures chain.mainTip.value in chain.blocks && NewTip(chain.blocks, chain.mainTip, b) == Some(b.hash)
  {
    hide Cached, ChildrenListed, NoRewards, ChainStates.ChainState.Objects, ChainStates.ChainState.Parts, ChainStates.ChainState.View;
    TipByHeight(chain.rules, chain.blocks, chain.Views(), chain.mainTip, b, b.id);
  }

  lemma CandidateOfOne(chain: Blockchain, tx: Transaction, miner: string, description: string, timestamp: string, seal: Seal)
    requires chain.Valid() && chain.mainTip.Some? && chain.pending == [tx] && Replayable(chain.rules.crypto, chain.TipState(), [tx])
    ensures var fees := OnTip(chain.rules.crypto, chain.TipState(), [tx]).value.feePaid;
            chain.Candidate(miner, description, timestamp, seal)
              == MinedBlock(chain.TipState().height + 1, chain.mainTip.value, [tx], fees, miner, description, timestamp, seal)
  {
    hide Blockchain.Valid, Blockchain.Owned, Blockchain.Views, OnTip, Selected;
    OnlyOneToSelect(chain.rules.crypto, chain.TipState(), tx);
  }

  lemma NewHash(branch: seq<Block>, blocks: Tree, seal: Seal)
    requires HoldsHashesOf(blocks, branch) && Extensible(branch, seal)
    ensures seal.hash !in blocks
  {
    hide HashAmong;
  }

  // ---- Mining fails -----------------------------------------------------------------------

  lemma GreedyPoolReplays(r: Rules)
    requires SignedBy(r.crypto, GREEDY_CALL, "miner")
    ensures Replayable(r.crypto, POOR_TIP, [GREEDY_CALL]) && POOR_TIP == RewardTip("miner", 10)
  {
    hide OnTip, RewardTip, BuildChild, MinedBlock, VerificationError, Replay;
    RewardMaySpoilTheBlock(r, "", "", "", Seal(0, ""));
  }

  // The chain of ten rewards with one transaction in its pool.
  method GreedyChain(r: Rules, branch: seq<Block>) returns (chain: Blockchain)
    requires RewardsOnly(r, branch, "miner") && |branch| == 11 && DistinctlyHashed(branch) && SignedBy(r.crypto, GREEDY_CALL, "miner")
    ensures fresh(chain) && chain.Valid() && chain.rules == r && chain.TipState() == POOR_TIP && chain.mainTip == Some(branch[10].hash)
    ensures chain.pending == [GREEDY_CALL] && chain.MempoolReplays() && HoldsHashesOf(chain.blocks, branch)
  {
    hide RewardsOnly, DistinctlyHashed, Blockchain.Valid, Blockchain.Owned, Blockchain.Views, OnTip, Rooted, HoldsHashesOf, NoRewards, RewardTip, Replayable,
         Replay, TransactionIds;
    GreedyPoolReplays(r);
    chain := ChainOnRewards(r, branch, "miner");
    assert [] + [GREEDY_CALL] == [GREEDY_CALL];
    var error := chain.AddTransaction(GREEDY_CALL);
  }

  lemma GreedyBlock(r: Rules, tipHash: string, description: string, timestamp: string, seal: Seal)
    requires SignedBy(r.crypto, GREEDY_CALL, "miner")
    ensures var b := MinedBlock(11, tipHash, [GREEDY_CALL], 51.0, "miner", description, timestamp, seal);
            && POOR_TIP.height == 10 && b.previousHash == tipHash && b.id == 11 && b.hash == seal.hash
            && Replayable(r.crypto, POOR_TIP, [GREEDY_CALL]) && OnTip(r.crypto, POOR_TIP, [GREEDY_CALL]).value.feePaid == 51.0
            && BuildChild(r, b, POOR_TIP).Failure?
            && (VerificationError(r, b).None? ==> BuildChild(r, b, POOR_TIP) == Failure(WrongRewardAmount))
  {
    hide OnTip, VerificationError, BuildChild, MinedBlock, Replayable, Replay, RewardsOnly;
    RewardMaySpoilTheBlock(r, tipHash, description, timestamp, seal);
    OnTheTip(11, tipHash, [GREEDY_CALL], 51.0, "miner", description, timestamp, seal);
  }

  // The chain refuses the block that would be mined.
  lemma GreedyVerdict(chain: Blockchain, branch: seq<Block>, description: string, timestamp: string, seal: Seal)
    requires chain.Valid() && chain.TipState() == POOR_TIP && |branch| == 11 && chain.mainTip == Some(branch[10].hash)
    requires chain.pending == [GREEDY_CALL] && HoldsHashesOf(chain.blocks, branch) && SignedBy(chain.rules.crypto, GREEDY_CALL, "miner")
    ensures var b := MinedBlock(11, branch[10].hash, [GREEDY_CALL], 51.0, "miner", description, timestamp, seal);
            && chain.Candidate("miner", description, timestamp, seal) == b && chain.Verdict(b) != Accepted
            && (Extensible(branch, seal) && VerificationError(chain.rules, b).None? ==> chain.Verdict(b) == Invalid(WrongRewardAmount))
  {
    hide Blockchain.Valid, Blockchain.Owned, Blockchain.Views, Blockchain.Verdict, Blockchain.Candidate,
         OnTip, VerificationError, BuildChild, Extend, Rooted, HoldsHashesOf, HashAmong, NoRewards, MinedBlock, RewardTip, Replayable, Replay, SignedBy;
    GreedyBlock(chain.rules, branch[10].hash, description, timestamp, seal);
    CandidateOfOne(chain, GREEDY_CALL, "miner", description, timestamp, seal);
    var b := MinedBlock(11, branch[10].hash, [GREEDY_CALL], 51.0, "miner", description, timestamp, seal);
    VerdictOnTip(chain, b);
    if Extensible(branch, seal) {
      NewHash(branch, chain.blocks, seal);
    }
  }

  // On a chain of ten rewards a pool of one transaction replays, and yet mining it fails, whatever
  // the search for a proof of work finds.
  method MiningFails(r: Rules, branch: seq<Block>, description: string, timestamp: string, seal: Seal)
    returns (chain: Blockchain, result: Result<Block, MiningError>)
    requires RewardsOnly(r, branch, "miner") && |branch| == 11 && DistinctlyHashed(branch) && SignedBy(r.crypto, GREEDY_CALL, "miner")
    ensures fresh(chain) && chain.Valid() && chain.rules == r && chain.mainTip == Some(branch[10].hash)
    ensures chain.pending == [GREEDY_CALL]
    ensures result.Failure?
    ensures var b := MinedBlock(11, branch[10].hash, [GREEDY_CALL], 51.0, "miner", description, timestamp, seal);
            (Extensible(branch, seal) && VerificationError(r, b).None? ==> result == Failure(BlockRefused(Invalid(WrongRewardAmount))))
  {
    hide RewardsOnly, DistinctlyHashed, Blockchain.Valid, Blockchain.Owned, Blockchain.Views, Blockchain.Verdict, Blockchain.Candidate,
         Blockchain.MiningIsSafe, Blockchain.ReconciledPool, Blockchain.Entered, Blockchain.TipState, Blockchain.MempoolReplays, VerificationError,
         Extensible, HoldsHashesOf, MinedBlock, SignedBy, RewardTip;
    chain := GreedyChain(r, branch);
    GreedyVerdict(chain, branch, description, timestamp, seal);
    result := chain.MinePendingTransactions("miner", description, timestamp, seal);
  }

  lemma OnTheTip(height: int, tipHash: string, selected: seq<Transaction>, fees: real, miner: string, description: string, timestamp: string, seal: Seal)
    ensures var b := MinedBlock(height, tipHash, selected, fees, miner, description, timestamp, seal);
            b.previousHash == tipHash && b.id == height && b.hash == seal.hash
  {
  }

  // ---- A wallet pays without consent ------------------------------------------------------

  // On a chain whose only reward went to the wallet, a signed call with its own program enters the
  // pool, is mined by somebody else, and leaves the wallet poorer; it has signed nothing.
  method WalletPays(r: Rules, branch: seq<Block>, seal: Seal) returns (chain: Blockchain, ghost before: real)
    requires RewardsOnly(r, branch, "wallet") && |branch| == 2 && DistinctlyHashed(branch) && SignedBy(r.crypto, Consent.INLINE_CALL, "caller")
    requires Extensible(branch, seal)
    requires VerificationError(r, MinedBlock(2, branch[1].hash, [Consent.INLINE_CALL], 0.0, "miner", "", "", seal)).None?
    ensures fresh(chain) && chain.Valid() && chain.rules == r && chain.mainTip == Some(seal.hash)
    ensures before == 10.0 && Bal(chain.TipState().balances, "wallet") == 5.0
  {
    hide RewardsOnly, DistinctlyHashed, Blockchain.Valid, Blockchain.Owned, Blockchain.Views, Blockchain.Verdict, Blockchain.Candidate,
         OnTip, VerificationError, BuildChild, Extend, Rooted, HoldsHashesOf, HashAmong, NoRewards, SteadyAll, Blockchain.ReconciledPool;
    chain := ChainOnRewards(r, branch, "wallet");
    before := Bal(chain.TipState().balances, "wallet");
    var tx, tip, tipHash := Consent.INLINE_CALL, RewardTip("wallet", 1), branch[1].hash;
    InlineCallApplies(r, branch, tipHash, seal);
    assert [] + [tx] == [tx];
    var error := chain.AddTransaction(tx);
    CandidateOfOne(chain, tx, "miner", "", "", seal);
    var b := MinedBlock(2, tipHash, [tx], 0.0, "miner", "", "", seal);
    VerdictOnTip(chain, b);
    NextIsHigher(chain, b);
    NewHash(branch, chain.blocks, seal);
    ghost var tree, views, head := chain.blocks, chain.Views(), chain.mainTip;
    var result := chain.MinePendingTransactions("miner", "", "", seal);
    assert chain.mainTip == NewTip(tree, head, b);
    TipStateIs(chain, seal.hash);
  }

  lemma TipStateIs(chain: Blockchain, h: string)
    requires chain.Valid() && chain.mainTip == Some(h)
    ensures h in chain.Views() && chain.TipState() == chain.Views()[h]
  {
    hide Cached, ChildrenListed, NoRewards, ChainStates.ChainState.Objects, ChainStates.ChainState.Parts, ChainStates.ChainState.View;
    TreeFacts(chain.rules, chain.blocks, chain.Views(), chain.mainTip);
  }

  lemma InlineCallApplies(r: Rules, branch: seq<Block>, tipHash: string, seal: Seal)
    requires RewardsOnly(r, branch, "wallet") && |branch| == 2 && SignedBy(r.crypto, Consent.INLINE_CALL, "caller")
    requires VerificationError(r, MinedBlock(2, tipHash, [Consent.INLINE_CALL], 0.0, "miner", "", "", seal)).None?
    ensures var tip := RewardTip("wallet", 1);
            && Replayable(r.crypto, tip, [Consent.INLINE_CALL]) && OnTip(r.crypto, tip, [Consent.INLINE_CALL]).value.feePaid == 0.0
            && var child := BuildChild(r, MinedBlock(2, tipHash, [Consent.INLINE_CALL], 0.0, "miner", "", "", seal), tip);
               child.Success? && Bal(child.value.balances, "wallet") == 5.0
  {
    hide VerificationError, BuildChild, Uvm.Execute, RewardsOnly, Executed;
    var c, tx, tip := r.crypto, Consent.INLINE_CALL, RewardTip("wallet", 1);
    Consent.InlineCallRuns(c);
    JustOne(c, tip, tx, 2);
    MinedBlockIsAccepted(r, tip, tipHash, [tx], "miner", "", "", seal);
  }

  // ---- Two states under one hash ----------------------------------------------------------

  // Two chains with the same blocks are offered the same two blocks, in one order and in the other:
  // each takes the first, has the second for a duplicate, and stores another state under the hash.
  method OneHashTwoStates(r: Rules, branch: seq<Block>, seal: Seal) returns (left: Blockchain, right: Blockchain)
    requires RewardsOnly(r, branch, "miner") && DistinctlyHashed(branch) && SignedBy(r.crypto, Consent.LEGACY_CALL, "wallet")
    requires Extensible(branch, seal) && VerificationError(r, CopyBlock(|branch|, branch[|branch| - 1].hash, "one", seal)).None?
    ensures left.Valid() && right.Valid() && left.rules == right.rules == r
    ensures var one, other := CopyBlock(|branch|, branch[|branch| - 1].hash, "one", seal), CopyBlock(|branch|, branch[|branch| - 1].hash, "other", seal);
            && left.blocks.Keys == right.blocks.Keys && seal.hash in left.blocks && left.blocks[seal.hash] == one && right.blocks[seal.hash] == other
            && seal.hash in left.Views() && seal.hash in right.Views() && left.Views()[seal.hash] != right.Views()[seal.hash]
  {
    hide RewardsOnly, DistinctlyHashed, Blockchain.Valid, Blockchain.Owned, Blockchain.Views, Blockchain.Verdict, HoldsHashesOf, HashAmong,
         VerificationError, BuildChild, Extend, Rooted, NoRewards, CopyBlock;
    var tipHash := branch[|branch| - 1].hash;
    var one, other := CopyBlock(|branch|, tipHash, "one", seal), CopyBlock(|branch|, tipHash, "other", seal);
    CopiesShareTheirWords(r, |branch|, tipHash, seal);
    left := OfferBoth(r, branch, one, other, "one", seal);
    right := OfferBoth(r, branch, other, one, "other", seal);
  }

  // A chain on the branch to which a copy block is offered, and then another one under its hash.
  method OfferBoth(r: Rules, branch: seq<Block>, first: Block, second: Block, request: string, seal: Seal) returns (chain: Blockchain)
    requires RewardsOnly(r, branch, "miner") && DistinctlyHashed(branch) && SignedBy(r.crypto, Consent.LEGACY_CALL, "wallet")
    requires Extensible(branch, seal) && first == CopyBlock(|branch|, branch[|branch| - 1].hash, request, seal) && second.hash == first.hash
    requires VerificationError(r, first).None? && RequestIdError(request).None?
    ensures fresh(chain) && chain.Valid() && chain.rules == r
    ensures forall h :: h in chain.blocks <==> HashAmong(branch, h) || h == seal.hash
    ensures seal.hash in chain.blocks && chain.blocks[seal.hash] == first && seal.hash in chain.Views()
    ensures var s := chain.Views()[seal.hash]; |s.authorizations| == 1 && s.authorizations[0].requestId == request
  {
    hide RewardsOnly, DistinctlyHashed, Blockchain.Valid, Blockchain.Owned, Blockchain.Views, HashAmong, Blockchain.ReconciledPool,
         VerificationError, BuildChild, Extend, Rooted, NoRewards, RequestIdError, CopyBlock, Extensible, RewardTip, NewTip, NothingLost,
         Replayable, TransactionsAbove, MinedBlock, SignedBy;
    chain := ChainOnRewards(r, branch, "miner");
    CopyVerdict(chain, branch, request, seal);
    var accepted := chain.AddBlock(first, true);
    var repeated := chain.AddBlock(second, true);
    assert repeated == Duplicate;
  }

  lemma CopyVerdict(chain: Blockchain, branch: seq<Block>, request: string, seal: Seal)
    requires OnRewards(chain, chain.rules, branch, "miner") && Extensible(branch, seal)
    requires SignedBy(chain.rules.crypto, Consent.LEGACY_CALL, "wallet") && RequestIdError(request).None?
    requires VerificationError(chain.rules, CopyBlock(|branch|, branch[|branch| - 1].hash, request, seal)).None?
    ensures var b := CopyBlock(|branch|, branch[|branch| - 1].hash, request, seal);
            && b.hash == seal.hash && seal.hash !in chain.blocks && chain.Verdict(b) == Accepted
            && var child := Extend(chain.rules, b, Known(chain.Views(), b));
               child.Success? && |child.value.authorizations| == 1 && child.value.authorizations[0].requestId == request
  {
    hide Blockchain.Valid, Blockchain.Owned, Blockchain.Views, HashAmong, VerificationError, BuildChild, Extend, Rooted, NoRewards,
         RequestIdError, RewardTip, HoldsHashesOf;
    var tipHash := branch[|branch| - 1].hash;
    CopyBlockApplies(chain.rules, |branch| - 1, tipHash, request, seal);
    TipHeight("miner", |branch| - 1);
    VerdictOnTip(chain, CopyBlock(|branch|, tipHash, request, seal));
    NewHash(branch, chain.blocks, seal);
  }

  lemma TipHeight(miner: string, n: nat)
    ensures RewardTip(miner, n).height == n
  {
  }

  // ---- All of this happens ----------------------------------------------------------------

  // With hashes that tell heights apart there are such branches of every length, and seals that
  // prove the work of the next block.
  lemma TalliedBranchesServe(c: Crypto, miner: string, n: nat, selected: seq<Transaction>, fees: real, description: string, timestamp: string)
    ensures var r, branch, seal := TalliedRules(c), Rewarded(miner, n), Seal(0, Tally(n + 1));
            && RewardsOnly(r, branch, miner) && DistinctlyHashed(branch) && |branch| == n + 1 && Extensible(branch, seal)
            && VerificationError(r, MinedBlock(n + 1, branch[n].hash, selected, fees, miner, description, timestamp, seal)).None?
  {
    hide RewardsOnly, DistinctlyHashed;
    RewardedIsRewardsOnly(c, miner, n);
    GenesisHashes();
    var branch := Rewarded(miner, n);
    forall i | 0 <= i < |branch|
      ensures branch[i].hash != Tally(n + 1)
    {
      assert |branch[i].hash| == 64 + i;
    }
  }
}

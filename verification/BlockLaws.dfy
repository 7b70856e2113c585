/** Which blocks a chain accepts, and what every block it has stored looks like: its hash, its proof
    of work, its transactions and its reward. */
module BlockLaws {
  import opened Base
  import opened Ledger
  import opened LedgerTheorems
  import opened AccountLaws
  import opened Blocks
  import opened BlockTheorems
  import opened BlockTree
  import opened Mempool
  import opened Blockchains

  // ---- One block --------------------------------------------------------------------------

  // The first transaction is the only reward; it carries no fee and names a receiver.
  predicate RewardedFirst(txs: seq<Transaction>) {
    && txs != [] && txs[0].sender == "SYSTEM" && (forall i :: 0 < i < |txs| ==> txs[i].sender != "SYSTEM")
    && txs[0].fee == 0.0 && txs[0].receiver != ""
  }

  // The block is hashed as it claims, has its proof of work and holds at most a hundred
  // transactions, a reward first.
  ghost predicate Sealed(r: Rules, b: Block) {
    && b.hash == r.hashBlock(BlockWordsOf(b)) && r.meetsDifficulty(b.hash, b.id) && |b.transactions| <= 100
    && if b.id == 0 then forall i :: 0 <= i < |b.transactions| ==> b.transactions[i].sender != "SYSTEM"
       else RewardedFirst(b.transactions)
  }

  lemma {:induction false} NoneIsReward(txs: seq<Transaction>)
    ensures Rewards(txs) == [] <==> forall i :: 0 <= i < |txs| ==> txs[i].sender != "SYSTEM"
  {
    if txs != [] {
      NoneIsReward(txs[1..]);
      if IsReward(txs[0]) {
        assert txs[0].sender == "SYSTEM";
      } else {
        assert forall i :: 0 < i < |txs| ==> txs[i] == txs[1..][i - 1];
        assert forall i :: 0 <= i < |txs| - 1 ==> txs[1..][i] == txs[i + 1];
      }
    }
  }

  lemma {:induction false} RewardsAreRewards(txs: seq<Transaction>)
    ensures forall i :: 0 <= i < |Rewards(txs)| ==> IsReward(Rewards(txs)[i])
  {
    if txs != [] {
      RewardsAreRewards(txs[1..]);
    }
  }

  lemma FirstIsReward(b: Block)
    requires b.id != 0
    ensures RewardStructureError(b).None? <==> RewardedFirst(b.transactions)
    ensures RewardedFirst(b.transactions) ==> Rewards(b.transactions) == [b.transactions[0]]
  {
    var txs := b.transactions;
    RewardsAreRewards(txs);
    if txs != [] {
      NoneIsReward(txs[1..]);
      assert forall i :: 0 < i < |txs| ==> txs[i] == txs[1..][i - 1];
    }
  }

  lemma HeadersAreSealed(r: Rules, b: Block)
    ensures HeaderError(r, b).None? <==> Sealed(r, b)
  {
    hide Rewards, RewardedFirst;
    if b.id == 0 {
      NoneIsReward(b.transactions);
    } else {
      FirstIsReward(b);
    }
  }

  // ---- Transactions in their turn ---------------------------------------------------------

  // Every transaction is admissible in the state those before it lead to.
  ghost predicate AdmissibleInTurn(c: Crypto, s: State, txs: seq<Transaction>, height: int) {
    forall i :: 0 <= i < |txs| ==>
      ApplyAll(c, s, txs[..i], height).Success? && Admissible(c, ApplyAll(c, s, txs[..i], height).value.state, txs[i])
  }

  lemma {:induction false} AppliesInTurn(c: Crypto, s: State, txs: seq<Transaction>, height: int)
    ensures ApplyAll(c, s, txs, height).Success? <==> AdmissibleInTurn(c, s, txs, height)
  {
    hide Apply, Admissible;
    if txs != [] {
      var front, last := txs[..|txs| - 1], txs[|txs| - 1];
      AppliesInTurn(c, s, front, height);
      assert forall i :: 0 <= i < |txs| ==> txs[..i] == front[..i];
      assert front[..|front|] == front;
      if ApplyAll(c, s, front, height).Success? {
        AcceptedExactly(c, ApplyAll(c, s, front, height).value.state, last, height);
      }
    }
  }

  // The fees of a sequence, each transaction's in its own turn.
  ghost function FeesOf(c: Crypto, s: State, txs: seq<Transaction>, height: int): real
    requires ApplyAll(c, s, txs, height).Success?
  {
    if txs == [] then 0.0 else
    var front, last := txs[..|txs| - 1], txs[|txs| - 1];
    var before := ApplyAll(c, s, front, height).value.state;
    AcceptedExactly(c, before, last, height);
    FeesOf(c, s, front, height) + FeeOf(c, before, last, height)
  }

  lemma {:induction false} FeesAddUp(c: Crypto, s: State, txs: seq<Transaction>, height: int)
    requires ApplyAll(c, s, txs, height).Success?
    ensures ApplyAll(c, s, txs, height).value.feePaid == FeesOf(c, s, txs, height)
  {
    hide Apply, Admissible, FeeOf, Bal;
    if txs != [] {
      var front, last := txs[..|txs| - 1], txs[|txs| - 1];
      FeesAddUp(c, s, front, height);
      BalancesMove(c, ApplyAll(c, s, front, height).value.state, last, height);
    }
  }

  // ---- Acceptance -------------------------------------------------------------------------

  // The transactions apply in order, and the reward is worth ten coins and the fees they pay.
  ghost predicate PaysOut(c: Crypto, b: Block, parent: State) {
    var start := parent.(height := b.id);
    && AdmissibleInTurn(c, start, b.transactions, b.id)
    && (b.id != 0 ==>
          && b.transactions != [] && ApplyAll(c, start, b.transactions, b.id).Success?
          && b.transactions[0].amount == 10.0 + FeesOf(c, start, b.transactions, b.id))
  }

  lemma PaidOutExactly(r: Rules, b: Block, parent: State)
    requires Sealed(r, b)
    ensures HeaderError(r, b).None? && (BuildChild(r, b, parent).Success? <==> PaysOut(r.crypto, b, parent))
  {
    hide ApplyAll, Sealed, AdmissibleInTurn, FeesOf, HeaderError;
    HeadersAreSealed(r, b);
    HeaderComesFirst(r, b);
    BuildChildIsSlowChild(r, b, parent);
    var start := parent.(height := b.id);
    AppliesInTurn(r.crypto, start, b.transactions, b.id);
    if ApplyAll(r.crypto, start, b.transactions, b.id).Success? {
      FeesAddUp(r.crypto, start, b.transactions, b.id);
    }
    if b.id != 0 {
      FirstIsReward(b);
    }
  }

  // The one genesis block.
  ghost predicate IsGenesis(r: Rules, b: Block) {
    && b.id == 0 && b.transactions == [] && b.description == "Genesis block" && b.nonce == 42
    && b.previousHash == GENESIS_PREVIOUS_HASH && b.hash == GENESIS_HASH && r.hashBlock(BlockWordsOf(b)) == GENESIS_HASH
    && r.meetsDifficulty(GENESIS_HASH, 0)
  }

  ghost predicate Follows(r: Rules, b: Block, parent: State) {
    b.previousHash != GENESIS_PREVIOUS_HASH && b.id == parent.height + 1 && Sealed(r, b) && PaysOut(r.crypto, b, parent)
  }

  lemma GenesisExactly(r: Rules, b: Block, parent: Option<State>)
    requires b.previousHash == GENESIS_PREVIOUS_HASH
    ensures Extend(r, b, parent).Success? <==> IsGenesis(r, b)
  {
    hide PaysOut;
    if GenesisError(r, b).None? {
      HeadersAreSealed(r, b);
      BuildChildIsSlowChild(r, b, EMPTY_STATE);
      if Sealed(r, b) {
        GenesisState(r, b);
      }
    }
  }

  // A block extends a chain exactly when it is the genesis block, or stands one above a known
  // parent, is sealed and pays out.
  lemma ExtendsExactly(r: Rules, b: Block, parent: Option<State>)
    ensures Extend(r, b, parent).Success? <==>
              if b.previousHash == GENESIS_PREVIOUS_HASH then IsGenesis(r, b) else parent.Some? && Follows(r, b, parent.value)
  {
    hide BuildChild, IsGenesis, GenesisError, PaysOut, Sealed;
    if b.previousHash == GENESIS_PREVIOUS_HASH {
      GenesisExactly(r, b, parent);
    } else if parent.Some? && b.id == parent.value.height + 1 {
      if Sealed(r, b) {
        PaidOutExactly(r, b, parent.value);
      } else {
        HeadersAreSealed(r, b);
        BuildChildIsSlowChild(r, b, parent.value);
      }
    }
  }

  // What a block makes of every account: nothing but the changes its transactions make in turn.
  lemma BlocksMove(r: Rules, b: Block, parent: State, account: string)
    requires b.previousHash != GENESIS_PREVIOUS_HASH && Extend(r, b, Some(parent)).Success?
    ensures var start, child := parent.(height := b.id), Extend(r, b, Some(parent)).value;
            && ApplyAll(r.crypto, start, b.transactions, b.id).Success?
            && Bal(child.balances, account) == Bal(parent.balances, account) + TotalChange(r.crypto, start, b.transactions, b.id, account)
  {
    hide SlowChild, FastChild, Bal, TotalChange, ApplyAll, HeaderError;
    BuildChildIsSlowChild(r, b, parent);
    HeaderComesFirst(r, b);
    BlockMoves(r, b, parent, account);
  }

  // ---- Chains -----------------------------------------------------------------------------

  // A block is accepted exactly when it is new, its parent is known, and it is the genesis block or
  // follows the parent's state.
  lemma AcceptedBlocks(chain: Blockchain, b: Block)
    requires chain.Valid()
    ensures chain.blocks.Keys == chain.Views().Keys
    ensures chain.Verdict(b) == Accepted <==>
              && b.hash !in chain.blocks
              && if b.previousHash == GENESIS_PREVIOUS_HASH then IsGenesis(chain.rules, b)
                 else b.previousHash in chain.blocks && Follows(chain.rules, b, chain.Views()[b.previousHash])
  {
    hide Cached, ChildrenListed, TipIsHighest, NoRewards, Extend, Follows, IsGenesis, Blockchain.Owned, Blockchain.Views;
    ParentsAreKnown(chain.rules, chain.blocks, chain.Views());
    ExtendsExactly(chain.rules, b, chain.KnownParent(b));
  }

  // Every stored block is sealed under its own hash; above genesis it follows the state of its
  // parent, so that its reward comes first and is worth ten coins and its fees.
  lemma StoredBlocksAreSealed(chain: Blockchain, h: string)
    requires chain.Valid() && h in chain.blocks
    ensures chain.blocks.Keys == chain.Views().Keys
    ensures var b := chain.blocks[h];
            && b.hash == h && Sealed(chain.rules, b)
            && if b.id == 0 then IsGenesis(chain.rules, b)
               else b.previousHash in chain.blocks && Follows(chain.rules, b, chain.Views()[b.previousHash])
  {
    hide Cached, ChildrenListed, TipIsHighest, NoRewards, Extend, PaysOut, Sealed, Blockchain.Owned, Blockchain.Views;
    ParentsAreKnown(chain.rules, chain.blocks, chain.Views());
    CachedBlock(chain.rules, chain.blocks, chain.Views(), h);
    var b := chain.blocks[h];
    ExtendsExactly(chain.rules, b, chain.KnownParent(b));
    CachedIsRooted(chain.rules, chain.blocks, chain.Views());
    ParentIsBelow(chain.blocks, h);
    if b.previousHash == GENESIS_PREVIOUS_HASH {
      GenesisIsSealed(chain.rules, b);
    }
  }

  lemma GenesisIsSealed(r: Rules, b: Block)
    requires IsGenesis(r, b)
    ensures Sealed(r, b)
  {
  }

  // A block whose claimed hash is not its own, that lacks its proof of work, or holds more than a
  // hundred transactions, no reward in front, or a second one, is never accepted.
  lemma UnsealedBlocksAreRefused(chain: Blockchain, b: Block)
    requires chain.Valid()
    requires || b.hash != chain.rules.hashBlock(BlockWordsOf(b)) || !chain.rules.meetsDifficulty(b.hash, b.id)
             || |b.transactions| > 100 || (b.id != 0 && !RewardedFirst(b.transactions))
    ensures chain.Verdict(b) != Accepted
  {
    hide Blockchain.Valid, Blockchain.Verdict, RewardedFirst, PaysOut, Blockchain.Views, Blockchain.Owned;
    AcceptedBlocks(chain, b);
  }

  // From the state of its parent to its own, a stored block changes every account by what its
  // transactions change of it in turn, and by nothing else.
  lemma StoredBalancesMove(chain: Blockchain, h: string, account: string)
    requires chain.Valid() && h in chain.blocks && chain.blocks[h].previousHash != GENESIS_PREVIOUS_HASH
    ensures chain.blocks.Keys == chain.Views().Keys && chain.blocks[h].previousHash in chain.blocks
    ensures var b, parent := chain.blocks[h], chain.Views()[chain.blocks[h].previousHash];
            var start := parent.(height := b.id);
            && ApplyAll(chain.rules.crypto, start, b.transactions, b.id).Success?
            && Bal(chain.Views()[h].balances, account) == Bal(parent.balances, account)
                                                          + TotalChange(chain.rules.crypto, start, b.transactions, b.id, account)
  {
    hide Cached, ChildrenListed, TipIsHighest, NoRewards, Extend, ApplyAll, TotalChange, Bal, Blockchain.Owned, Blockchain.Views;
    ParentsAreKnown(chain.rules, chain.blocks, chain.Views());
    CachedBlock(chain.rules, chain.blocks, chain.Views(), h);
    BlocksMove(chain.rules, chain.blocks[h], chain.Views()[chain.blocks[h].previousHash], account);
  }
}

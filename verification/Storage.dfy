/** Saving and loading a chain: what is written is the canonical chain and the pool, and loading it
    builds the same chain again. */
module Storage {
  import opened Base
  import opened Ledger
  import opened Blocks
  import opened BlockTheorems
  import opened BlockTree
  import opened Mempool
  import opened Blockchains

  datatype SavedChain = SavedChain(blocks: seq<Block>, pending: seq<Transaction>)

  // The canonical chain, empty when there is no block, and the pool.
  ghost function Saved(chain: Blockchain): SavedChain
    reads chain, chain.repr
    requires chain.Valid()
  {
    TreeFacts(chain.rules, chain.blocks, chain.Views(), chain.mainTip);
    SavedChain(if chain.mainTip.Some? then Branch(chain.blocks, chain.mainTip.value) else [], chain.pending)
  }

  // The blocks from the main tip down to genesis, turned around.
  method Save(chain: Blockchain) returns (saved: SavedChain)
    requires chain.Valid()
    ensures saved == Saved(chain)
  {
    hide Cached, ChildrenListed, NoRewards, Blockchain.Owned, Blockchain.Views;
    TreeFacts(chain.rules, chain.blocks, chain.Views(), chain.mainTip);
    var blocks := [];
    if chain.mainTip.Some? {
      blocks := CanonicalChain(chain.blocks, chain.mainTip.value);
    }
    return SavedChain(blocks, chain.pending);
  }

  method CanonicalChain(tree: Tree, tip: string) returns (blocks: seq<Block>)
    requires Rooted(tree) && tip in tree
    ensures blocks == Branch(tree, tip)
  {
    hide Rooted, Branch;
    var current := Some(tip);
    blocks := [];
    assert Branch(tree, tip) + [] == Branch(tree, tip);
    while current.Some?
      invariant current.Some? ==> current.value in tree
      invariant Branch(tree, tip) == (if current.Some? then Branch(tree, current.value) else []) + blocks
      decreases current.Some?, if current.Some? then Height(tree, current.value) else 0
    {
      ParentIsBelow(tree, current.value);
      BranchStep(tree, current.value, blocks);
      blocks := [tree[current.value]] + blocks;
      current := ParentOf(tree, current.value);
    }
  }

  lemma BranchStep(tree: Tree, h: string, more: seq<Block>)
    requires Rooted(tree) && h in tree
    ensures var p := ParentOf(tree, h);
            Branch(tree, h) + more == (if p.Some? then Branch(tree, p.value) else []) + ([tree[h]] + more)
  {
    hide Rooted;
  }

  // What has been built is the branch and nothing else, and its tip has the state the branch
  // replays to.
  ghost predicate Built(r: Rules, tree: Tree, views: map<string, State>, tip: Option<string>, branch: seq<Block>) {
    && Rooted(tree) && views.Keys == tree.Keys
    && HoldsHashesOf(tree, branch)
    && if branch == [] then tip == None
       else
         var last := branch[|branch| - 1].hash;
         && tip == Some(last) && last in tree && Branch(tree, last) == branch
         && Replay(r, branch) == Success(views[last])
  }

  lemma {:induction false} BranchKept(tree: Tree, b: Block, h: string)
    requires Rooted(tree) && Rooted(tree[b.hash := b]) && b.hash !in tree && h in tree
    ensures Branch(tree[b.hash := b], h) == Branch(tree, h)
    decreases Height(tree, h)
  {
    hide Rooted;
    ParentIsBelow(tree, h);
    ParentIsBelow(tree[b.hash := b], h);
    if ParentOf(tree, h).Some? {
      BranchKept(tree, b, ParentOf(tree, h).value);
    }
  }

  // The next block of a branch that replays is accepted and becomes the tip.
  lemma NextIsAccepted(r: Rules, tree: Tree, views: map<string, State>, tip: Option<string>, branch: seq<Block>, b: Block)
    requires Built(r, tree, views, tip, branch)
    requires Replay(r, branch + [b]).Success? && DistinctlyHashed(branch + [b])
    ensures b.hash !in tree && (b.previousHash == GENESIS_PREVIOUS_HASH || b.previousHash in tree)
    ensures Extend(r, b, Known(views, b)) == Replay(r, branch + [b])
    ensures (tip.Some? ==> tip.value in tree) && NewTip(tree, tip, b) == Some(b.hash)
  {
    hide Replay, Extend, Rooted;
    ReplayStep(r, branch + [b]);
    assert (branch + [b])[..|branch|] == branch;
    if branch == [] {
      GenesisNeedsNoParent(r, b, None, Known(views, b));
    } else {
      SupplyIsHeightTimesReward(r, branch);
      SupplyIsHeightTimesReward(r, branch + [b]);
    }
  }

  lemma NextIsBuilt(r: Rules, tree: Tree, views: map<string, State>, tip: Option<string>, branch: seq<Block>, b: Block, s: State)
    requires Built(r, tree, views, tip, branch) && b.hash !in tree && Rooted(tree[b.hash := b])
    requires Replay(r, branch + [b]) == Success(s)
    ensures Built(r, tree[b.hash := b], views[b.hash := s], Some(b.hash), branch + [b])
  {
    hide Replay, Rooted, HoldsHashesOf;
    var tree', all := tree[b.hash := b], branch + [b];
    ReplayStep(r, all);
    assert all[..|branch|] == branch;
    ParentIsBelow(tree', b.hash);
    if branch != [] {
      BranchKept(tree, b, b.previousHash);
    }
    HashesGrow(tree, branch, b);
  }

  ghost predicate HashAmong(branch: seq<Block>, h: string) {
    exists i :: 0 <= i < |branch| && branch[i].hash == h
  }

  ghost predicate HoldsHashesOf(tree: Tree, branch: seq<Block>) {
    forall h :: h in tree <==> HashAmong(branch, h)
  }

  lemma HashesGrow(tree: Tree, branch: seq<Block>, b: Block)
    requires HoldsHashesOf(tree, branch)
    ensures HoldsHashesOf(tree[b.hash := b], branch + [b])
  {
    var all := branch + [b];
    forall h | h in tree[b.hash := b]
      ensures HashAmong(all, h)
    {
      if h in tree {
        var i :| 0 <= i < |branch| && branch[i].hash == h;
        assert all[i].hash == h;
      } else {
        assert all[|branch|].hash == h;
      }
    }
  }

  ghost predicate Loaded(chain: Blockchain, branch: seq<Block>)
    reads chain, chain.repr
  {
    chain.Valid() && Built(chain.rules, chain.blocks, chain.Views(), chain.mainTip, branch) && chain.pending == []
  }

  // No block, or a branch that replays.
  ghost predicate Replays(r: Rules, blocks: seq<Block>) {
    blocks == [] || Replay(r, blocks).Success?
  }

  // The state that blocks lead to.
  ghost function Reached(r: Rules, blocks: seq<Block>): State
    requires Replays(r, blocks)
  {
    if blocks == [] then EMPTY_STATE else Replay(r, blocks).value
  }

  method LoadBlocks(chain: Blockchain, blocks: seq<Block>) returns (ok: bool)
    requires Loaded(chain, [])
    modifies chain
    ensures chain.Valid() && chain.pending == []
    ensures Replays(chain.rules, blocks) && DistinctlyHashed(blocks) ==> ok && Loaded(chain, blocks)
  {
    hide Built, Extend, Replay, DistinctlyHashed, NewTip, Blockchain.Valid, Blockchain.Owned, Blockchain.Views, Rooted, Blockchain.MempoolReplays;
    ghost var good := Replays(chain.rules, blocks) && DistinctlyHashed(blocks);
    for i := 0 to |blocks|
      invariant chain.Valid() && chain.pending == [] && (good ==> Loaded(chain, blocks[..i]))
      invariant fresh(chain.repr - old(chain.repr))
    {
      ghost var tree, views := chain.blocks, chain.Views();
      assert blocks[..i + 1] == blocks[..i] + [blocks[i]];
      if good {
        PrefixReplays(chain.rules, blocks, i + 1);
        NextIsAccepted(chain.rules, tree, views, chain.mainTip, blocks[..i], blocks[i]);
      }
      ghost var tip := chain.mainTip;
      var r := chain.AddBlock(blocks[i], false);
      if !r.Accepted? {
        return false;
      }
      if good {
        NextIsBuilt(chain.rules, tree, views, tip, blocks[..i], blocks[i], Replay(chain.rules, blocks[..i + 1]).value);
      }
    }
    assert blocks[..|blocks|] == blocks;
    return true;
  }

  lemma {:induction false} PrefixReplays(r: Rules, branch: seq<Block>, n: nat)
    requires Replay(r, branch).Success? && DistinctlyHashed(branch) && 0 < n <= |branch|
    ensures Replay(r, branch[..n]).Success? && DistinctlyHashed(branch[..n])
  {
    hide Replay;
    HistoryIsWriteOnce(r, branch, n);
  }

  method LoadPending(chain: Blockchain, pending: seq<Transaction>) returns (ok: bool)
    requires chain.Valid() && chain.pending == []
    modifies chain`pending
    ensures chain.Valid() && chain.Views() == old(chain.Views())
    ensures ok <==> OnTip(chain.rules.crypto, chain.TipState(), pending).Success? && NoRewards(pending)
    ensures ok ==> chain.pending == pending && chain.MempoolReplays()
  {
    hide ApplyAll, Blockchain.Valid, Blockchain.Owned, Blockchain.Views;
    ghost var c, tip := chain.rules.crypto, chain.TipState();
    NothingOnTip(c, tip);
    for i := 0 to |pending|
      invariant chain.Valid() && chain.Views() == old(chain.Views()) && chain.TipState() == tip
      invariant chain.pending == pending[..i] && Replayable(c, tip, pending[..i])
    {
      assert pending[..i + 1] == pending[..i] + [pending[i]];
      var error := chain.AddTransaction(pending[i]);
      if error.Some? {
        PrefixFails(c, tip, pending, i + 1);
        return false;
      }
    }
    assert pending[..|pending|] == pending;
    return true;
  }

  lemma PrefixFails(c: Crypto, tip: State, pending: seq<Transaction>, n: nat)
    requires n <= |pending| && !Replayable(c, tip, pending[..n])
    ensures !Replayable(c, tip, pending)
  {
    hide ApplyAll;
    if OnTip(c, tip, pending[..n]).Failure? {
      FailureSticks(c, tip, pending, n, tip.height + 1);
    }
  }

  // A saved chain that replays, with a pool that applies to its tip.
  ghost predicate Loadable(r: Rules, saved: SavedChain) {
    && Replays(r, saved.blocks) && DistinctlyHashed(saved.blocks)
    && Replayable(r.crypto, Reached(r, saved.blocks), saved.pending)
  }

  // Loads into an empty chain; null when a block or a pending transaction is refused.
  method Load(rules: Rules, saved: SavedChain) returns (chain: Blockchain?)
    ensures chain != null ==>
              fresh(chain) && chain.rules == rules && chain.Valid() && chain.MempoolReplays() && chain.pending == saved.pending
    ensures Loadable(rules, saved) ==>
              chain != null && Built(rules, chain.blocks, chain.Views(), chain.mainTip, saved.blocks)
  {
    hide Built, Replay, DistinctlyHashed, Blockchain.Valid, Blockchain.Owned, Blockchain.Views, OnTip, NoRewards;
    chain := new Blockchain(rules);
    NothingBuilt(rules);
    var blocksLoaded := LoadBlocks(chain, saved.blocks);
    if !blocksLoaded {
      return null;
    }
    if Loadable(rules, saved) {
      TipOfBuilt(rules, chain.blocks, chain.Views(), chain.mainTip, saved.blocks);
    }
    var pendingLoaded := LoadPending(chain, saved.pending);
    if !pendingLoaded {
      return null;
    }
  }

  lemma TipOfBuilt(r: Rules, tree: Tree, views: map<string, State>, tip: Option<string>, branch: seq<Block>)
    requires Built(r, tree, views, tip, branch) && Replays(r, branch)
    ensures HoldsHashesOf(tree, branch) && Rooted(tree)
    ensures tip == if branch == [] then None else Some(branch[|branch| - 1].hash)
    ensures tip.Some? ==> tip.value in views && tip.value in tree && Branch(tree, tip.value) == branch
    ensures Reached(r, branch) == if tip.Some? then views[tip.value] else EMPTY_STATE
  {
    hide Replay, Rooted, HoldsHashesOf;
  }

  lemma NothingBuilt(r: Rules)
    ensures Built(r, map[], map[], None, [])
  {
  }

  // ---- The round trip ---------------------------------------------------------------------

  lemma {:induction false} BranchesAreDistinctlyHashed(r: Rules, tree: Tree, views: map<string, State>, h: string)
    requires Cached(r, tree, views) && Rooted(tree) && h in tree
    ensures DistinctlyHashed(Branch(tree, h))
    ensures forall i :: 0 <= i < |Branch(tree, h)| ==> Stands(tree, Branch(tree, h)[i], i)
    decreases Height(tree, h)
  {
    hide Cached, Rooted;
    CachedBlock(r, tree, views, h);
    ParentIsBelow(tree, h);
    if ParentOf(tree, h).Some? {
      BranchesAreDistinctlyHashed(r, tree, views, ParentOf(tree, h).value);
    }
  }

  ghost predicate Stands(tree: Tree, b: Block, height: int) {
    b.hash in tree && tree[b.hash] == b && b.id == height
  }

  lemma SavedIsLoadable(chain: Blockchain)
    requires chain.Valid() && chain.MempoolReplays()
    ensures Loadable(chain.rules, Saved(chain))
    ensures var blocks := Saved(chain).blocks;
            && Reached(chain.rules, blocks) == chain.TipState()
            && chain.mainTip == if blocks == [] then None else Some(blocks[|blocks| - 1].hash)
  {
    hide Cached, ChildrenListed, Replayable, Blockchain.Owned, Blockchain.Views, Rooted, Replay, DistinctlyHashed;
    TreeFacts(chain.rules, chain.blocks, chain.Views(), chain.mainTip);
    if chain.mainTip.Some? {
      CacheIsReplay(chain.rules, chain.blocks, chain.Views(), chain.mainTip.value);
      BranchesAreDistinctlyHashed(chain.rules, chain.blocks, chain.Views(), chain.mainTip.value);
      CachedBlock(chain.rules, chain.blocks, chain.Views(), chain.mainTip.value);
    } else {
      NoneAreDistinct();
    }
  }

  lemma NoneAreDistinct()
    ensures DistinctlyHashed([])
  {
  }

  // Saving a chain and loading it again never fails, and gives the same canonical chain, tip, tip
  // state and pool; blocks off the canonical chain are not kept.
  method SaveAndLoad(chain: Blockchain) returns (copy: Blockchain?)
    requires chain.Valid() && chain.MempoolReplays()
    ensures copy != null && fresh(copy) && copy.Valid() && copy.MempoolReplays()
    ensures copy.mainTip == chain.mainTip && copy.TipState() == old(chain.TipState()) && copy.pending == chain.pending
    ensures Saved(copy) == old(Saved(chain))
    ensures HoldsHashesOf(copy.blocks, Saved(copy).blocks)
  {
    hide Built, Replay, DistinctlyHashed, Blockchain.Owned, Blockchain.Views, Blockchain.Valid, OnTip, NoRewards, Branch, HoldsHashesOf, Rooted;
    SavedIsLoadable(chain);
    var saved := Save(chain);
    copy := Load(chain.rules, saved);
    TipOfBuilt(chain.rules, copy.blocks, copy.Views(), copy.mainTip, saved.blocks);
  }
}

/** The round trip through dictionaries: a chain written as records, read back and loaded. */
module StoredChain {
  import opened Base
  import Ledger
  import Blocks
  import opened Blockchains
  import opened Storage
  import R = Records

  // How the ledger reads a record; whatever it makes of a payload, it makes of its canonical form.
  type Meaning = R.Transaction -> Ledger.Transaction

  ghost predicate Settled(c: R.Codec, meaning: Meaning) {
    forall tx :: R.Constructed(c, tx) == tx ==> meaning(R.Stored(c, tx)) == meaning(tx)
  }

  function TransactionsOf(meaning: Meaning, txs: seq<R.Transaction>): (r: seq<Ledger.Transaction>)
    ensures |r| == |txs|
  {
    seq(|txs|, i requires 0 <= i < |txs| => meaning(txs[i]))
  }

  function BlockOf(meaning: Meaning, b: R.Block): Blocks.Block {
    Blocks.Block(b.id, TransactionsOf(meaning, b.transactions), b.description, b.previousHash, b.nonce, b.hash)
  }

  function BlocksOf(meaning: Meaning, blocks: seq<R.Block>): (r: seq<Blocks.Block>)
    ensures |r| == |blocks|
  {
    seq(|blocks|, i requires 0 <= i < |blocks| => BlockOf(meaning, blocks[i]))
  }

  ghost predicate AllConstructed(c: R.Codec, txs: seq<R.Transaction>) {
    forall i :: 0 <= i < |txs| ==> R.Constructed(c, txs[i]) == txs[i]
  }

  ghost predicate BlocksConstructed(c: R.Codec, blocks: seq<R.Block>) {
    forall i :: 0 <= i < |blocks| ==> AllConstructed(c, blocks[i].transactions)
  }

  // ---- Writing and reading ----------------------------------------------------------------

  // A file's contents: a dictionary for each block and for each pending transaction.
  datatype File = File(blocks: seq<map<string, R.Value>>, pending: seq<map<string, R.Value>>)

  function Written(c: R.Codec, blocks: seq<R.Block>, pending: seq<R.Transaction>): File {
    File(seq(|blocks|, i requires 0 <= i < |blocks| => R.BlockToDict(c, blocks[i])),
         seq(|pending|, i requires 0 <= i < |pending| => R.ToDict(c, pending[i])))
  }

  function ReadBlocks(c: R.Codec, hash: R.Block -> string, dicts: seq<map<string, R.Value>>): Option<seq<R.Block>> {
    if dicts == [] then Some([]) else
    var front, last := ReadBlocks(c, hash, dicts[..|dicts| - 1]), R.BlockFromDict(c, hash, dicts[|dicts| - 1]);
    if front.None? || last.None? then None else Some(front.value + [last.value])
  }

  function ReadPool(c: R.Codec, dicts: seq<map<string, R.Value>>): Option<seq<R.Transaction>> {
    if dicts == [] then Some([]) else
    var front, last := ReadPool(c, dicts[..|dicts| - 1]), R.FromDict(c, dicts[|dicts| - 1]);
    if front.None? || last.None? then None else Some(front.value + [last.value])
  }

  lemma StoredMeansTheSame(c: R.Codec, meaning: Meaning, txs: seq<R.Transaction>)
    requires Settled(c, meaning) && AllConstructed(c, txs)
    ensures TransactionsOf(meaning, R.StoredAll(c, txs)) == TransactionsOf(meaning, txs)
  {
    hide R.Stored, R.Constructed;
    forall i | 0 <= i < |txs|
      ensures meaning(R.Stored(c, txs[i])) == meaning(txs[i])
    {
      assert R.Constructed(c, txs[i]) == txs[i];
    }
  }

  lemma {:induction false} BlocksReadBack(c: R.Codec, hash: R.Block -> string, meaning: Meaning, blocks: seq<R.Block>)
    requires R.Faithful(c) && Settled(c, meaning) && BlocksConstructed(c, blocks)
    ensures var back := ReadBlocks(c, hash, Written(c, blocks, []).blocks);
            back.Some? && BlocksOf(meaning, back.value) == BlocksOf(meaning, blocks)
  {
    hide R.Faithful, R.BlockToDict, R.BlockFromDict, R.StoredAll, Settled, AllConstructed, R.Constructed, TransactionsOf;
    if blocks != [] {
      var front, last := blocks[..|blocks| - 1], blocks[|blocks| - 1];
      BlocksReadBack(c, hash, meaning, front);
      BlockReadsBack(c, hash, meaning, last);
      var dicts := Written(c, blocks, []).blocks;
      assert dicts[..|dicts| - 1] == Written(c, front, []).blocks;
      var back := ReadBlocks(c, hash, dicts).value;
      OneMoreBlock(meaning, back[..|back| - 1], back[|back| - 1]);
      OneMoreBlock(meaning, front, last);
      assert blocks == front + [last] && back == back[..|back| - 1] + [back[|back| - 1]];
    }
  }

  lemma BlockReadsBack(c: R.Codec, hash: R.Block -> string, meaning: Meaning, b: R.Block)
    requires R.Faithful(c) && Settled(c, meaning) && AllConstructed(c, b.transactions)
    ensures var back := R.BlockFromDict(c, hash, R.BlockToDict(c, b)); back.Some? && BlockOf(meaning, back.value) == BlockOf(meaning, b)
  {
    hide R.Faithful, R.BlockToDict, R.BlockFromDict, R.StoredAll, Settled, R.Constructed, TransactionsOf;
    R.BlockRoundTrip(c, hash, b);
    StoredMeansTheSame(c, meaning, b.transactions);
  }

  lemma OneMoreBlock(meaning: Meaning, front: seq<R.Block>, last: R.Block)
    ensures BlocksOf(meaning, front + [last]) == BlocksOf(meaning, front) + [BlockOf(meaning, last)]
  {
    hide BlockOf;
  }

  lemma {:induction false} PoolReadsBack(c: R.Codec, meaning: Meaning, pending: seq<R.Transaction>)
    requires R.Faithful(c) && Settled(c, meaning) && AllConstructed(c, pending)
    ensures var back := ReadPool(c, Written(c, [], pending).pending);
            back.Some? && TransactionsOf(meaning, back.value) == TransactionsOf(meaning, pending)
  {
    hide R.Faithful, R.ToDict, R.FromDict, R.Stored, Settled, R.Constructed;
    if pending != [] {
      var front, last := pending[..|pending| - 1], pending[|pending| - 1];
      PoolReadsBack(c, meaning, front);
      R.TransactionRoundTrip(c, last);
      MeaningSettles(c, meaning, last);
      var dicts := Written(c, [], pending).pending;
      assert dicts[..|dicts| - 1] == Written(c, [], front).pending;
      var back := ReadPool(c, dicts).value;
      assert back == back[..|back| - 1] + [R.Stored(c, last)];
      assert TransactionsOf(meaning, back) == TransactionsOf(meaning, back[..|back| - 1]) + [meaning(R.Stored(c, last))];
      assert TransactionsOf(meaning, pending) == TransactionsOf(meaning, front) + [meaning(last)];
    }
  }

  lemma MeaningSettles(c: R.Codec, meaning: Meaning, tx: R.Transaction)
    requires Settled(c, meaning) && R.Constructed(c, tx) == tx
    ensures meaning(R.Stored(c, tx)) == meaning(tx)
  {
  }

  // ---- The whole way ----------------------------------------------------------------------

  // Reads the records of a file and loads what they mean; null when a record cannot be read or a
  // block or transaction is refused.
  method LoadFile(rules: Blocks.Rules, c: R.Codec, hash: R.Block -> string, meaning: Meaning, file: File) returns (chain: Blockchain?)
    ensures var blocks, pool := ReadBlocks(c, hash, file.blocks), ReadPool(c, file.pending);
            blocks.Some? && pool.Some? ==>
              var saved := SavedChain(BlocksOf(meaning, blocks.value), TransactionsOf(meaning, pool.value));
              Loadable(rules, saved) ==>
                && chain != null && fresh(chain) && chain.rules == rules && chain.Valid() && chain.MempoolReplays() && chain.pending == saved.pending
                && Built(rules, chain.blocks, chain.Views(), chain.mainTip, saved.blocks)
  {
    hide Loadable, Built, R.BlockFromDict, R.FromDict;
    var blocks, pool := ReadBlocks(c, hash, file.blocks), ReadPool(c, file.pending);
    if blocks.None? || pool.None? {
      return null;
    }
    chain := Load(rules, SavedChain(BlocksOf(meaning, blocks.value), TransactionsOf(meaning, pool.value)));
  }

  // When the records mean the chain's canonical blocks and pool, writing them, reading them back
  // and loading gives a chain with the same canonical blocks, tip, tip state and pool.
  method WriteAndLoad(chain: Blockchain, c: R.Codec, hash: R.Block -> string, meaning: Meaning, blocks: seq<R.Block>, pending: seq<R.Transaction>)
    returns (copy: Blockchain?)
    requires chain.Valid() && chain.MempoolReplays()
    requires R.Faithful(c) && Settled(c, meaning) && BlocksConstructed(c, blocks) && AllConstructed(c, pending)
    requires Saved(chain) == SavedChain(BlocksOf(meaning, blocks), TransactionsOf(meaning, pending))
    ensures copy != null && fresh(copy) && copy.Valid() && copy.MempoolReplays()
    ensures copy.mainTip == chain.mainTip && copy.TipState() == old(chain.TipState()) && copy.pending == chain.pending
    ensures Saved(copy) == old(Saved(chain))
  {
    hide R.Faithful, Settled, BlocksConstructed, AllConstructed, R.BlockToDict, R.ToDict, ReadBlocks, ReadPool, BlocksOf, TransactionsOf,
         Built, Loadable, Blockchain.Owned, Blockchain.Views, Blockchain.Valid;
    SavedIsLoadable(chain);
    var file := Written(c, blocks, pending);
    BlocksReadBack(c, hash, meaning, blocks);
    PoolReadsBack(c, meaning, pending);
    assert file.blocks == Written(c, blocks, []).blocks && file.pending == Written(c, [], pending).pending;
    copy := LoadFile(chain.rules, c, hash, meaning, file);
    LoadableReplays(chain.rules, Saved(chain));
    TipOfBuilt(chain.rules, copy.blocks, copy.Views(), copy.mainTip, Saved(chain).blocks);
  }

  lemma LoadableReplays(r: Blocks.Rules, saved: SavedChain)
    requires Loadable(r, saved)
    ensures Replays(r, saved.blocks)
  {
  }
}

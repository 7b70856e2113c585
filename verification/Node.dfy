/** The node's handling of incoming blocks: those whose parent is unknown wait, and are added when
    the parent has been. */
module Nodes {
  import opened Base
  import opened Ledger
  import opened Blocks
  import opened BlockTree
  import opened Blockchains
  import opened Orphans
  import opened HashedBlocks

  datatype BlockStatus = AcceptedBlock | DuplicateBlock | OrphanedBlock | RejectedBlock

  class Node {
    const chain: Blockchain
    var waiting: Waiting
    var orphans: set<string>

    // Every block that was ever delivered, by its hash.
    ghost var delivered: Tree

    // Every delivered block is in its place, except that some are in hand and some parents open.
    ghost predicate Sound(hand: seq<Block>, named: set<string>, open: seq<string>)
      reads this, chain, chain.repr
    {
      && this !in chain.repr && chain.Valid()
      && Sorted(chain.rules, delivered, chain.blocks, chain.Views(), waiting, hand, named, open)
    }

    ghost predicate Valid()
      reads this, chain, chain.repr
    {
      Sound([], orphans, [])
    }

    constructor (rules: Rules)
      ensures Valid() && chain.MempoolReplays() && delivered == map[] && chain.rules == rules
      ensures fresh(chain) && fresh(chain.repr)
    {
      chain := new Blockchain(rules);
      waiting, orphans, delivered := map[], {}, map[];
      new;
      NothingDelivered(rules);
    }

    // Adds a block to the chain: the first one in hand, or one that comes again.
    method AddToChain(ghost hand: seq<Block>, ghost named: set<string>, ghost open: seq<string>, b: Block, reconcile: bool) returns (r: Acceptance)
      requires Sound(hand, named, open)
      requires if hand == [] then open == [] && Holds(delivered, b) else hand[0] == b
      modifies chain
      ensures r == old(chain.Verdict(b))
      ensures match r
              case Accepted => hand != [] && Sound(hand[1..], named - {b.hash}, open + [b.hash])
              case Invalid(_) => if hand == [] then Sound([], named, []) && b.hash !in named else Sound(hand[1..], named - {b.hash}, open)
              case Orphan =>
                Sound(hand, named, open) && b.previousHash != GENESIS_PREVIOUS_HASH && b.previousHash !in chain.blocks && b.hash in named
              case Duplicate => hand == [] && Sound([], named, []) && b.hash !in named
      ensures reconcile && old(chain.MempoolReplays()) ==> chain.MempoolReplays()
      ensures chain.blocks.Keys == old(chain.blocks.Keys) + (if r == Accepted then {b.hash} else {})
      ensures fresh(chain.repr - old(chain.repr))
    {
      hide Extend, Sorted, NewTip, Blockchain.MempoolReplays, Blockchain.Valid, Blockchain.Owned, Blockchain.Views, Rooted;
      ghost var blocks, views := chain.blocks, chain.Views();
      if hand == [] {
        RepeatChangesNothing(chain.rules, delivered, blocks, views, waiting, named, b);
      } else {
        HandIsNew(chain.rules, delivered, blocks, views, waiting, hand, named, open);
        if Extend(chain.rules, b, Known(views, b)).Success? {
          PutInChain(chain.rules, delivered, blocks, views, waiting, hand, named, open, Extend(chain.rules, b, Known(views, b)).value);
        } else if b.previousHash == GENESIS_PREVIOUS_HASH || b.previousHash in blocks {
          Discard(chain.rules, delivered, blocks, views, waiting, hand, named, open);
        }
      }
      r := chain.AddBlock(b, reconcile);
    }

    // Distinct blocks carry distinct hashes.
    ghost predicate Honest(b: Block)
      reads `delivered
    {
      b.hash in delivered ==> delivered[b.hash] == b
    }

    method AcceptOrStoreBlock(b: Block, reconcile: bool) returns (status: BlockStatus)
      requires Valid() && Honest(b)
      modifies this, chain
      ensures Valid() && delivered == old(delivered)[b.hash := b]
      ensures status == match old(chain.Verdict(b)) {
                case Accepted => AcceptedBlock
                case Duplicate => DuplicateBlock
                case Orphan => OrphanedBlock
                case Invalid(_) => RejectedBlock }
      ensures reconcile && old(chain.MempoolReplays()) ==> chain.MempoolReplays()
      ensures fresh(chain.repr - old(chain.repr))
    {
      hide Extend, Sorted, NewTip, Blockchain.MempoolReplays, Blockchain.Valid, Blockchain.Owned, Blockchain.Views, Rooted, Blockchain.Verdict;
      ghost var hand, named := [], orphans;
      if b.hash !in delivered {
        TakeInHand(chain.rules, delivered, chain.blocks, chain.Views(), waiting, orphans, b);
        hand, named := [b], orphans + {b.hash};
      }
      delivered := delivered[b.hash := b];
      assert hand == [] ==> delivered == old(delivered);
      assert hand != [] ==> hand[1..] == [];
      assert [] + [b.hash] == [b.hash] && (orphans + {b.hash}) - {b.hash} == orphans - {b.hash};
      assert b.hash !in orphans ==> orphans - {b.hash} == orphans;
      var r := AddToChain(hand, named, [], b, reconcile);
      match r {
        case Accepted =>
          orphans := orphans - {b.hash};
          ResolveOrphanDescendants(b.hash, reconcile);
          return AcceptedBlock;
        case Duplicate =>
          orphans := orphans - {b.hash};
          return DuplicateBlock;
        case Orphan =>
          StoreOrphanBlock(hand, b);
          return OrphanedBlock;
        case Invalid(_) =>
          orphans := orphans - {b.hash};
          return RejectedBlock;
      }
    }

    method StoreOrphanBlock(ghost hand: seq<Block>, b: Block)
      requires if b.hash in orphans then hand == [] && Valid() else hand == [b] && Sound(hand, orphans + {b.hash}, [])
      requires b.previousHash != GENESIS_PREVIOUS_HASH && b.previousHash !in chain.blocks
      modifies `waiting, `orphans
      ensures Valid()
    {
      hide Sorted, Blockchain.Valid, Blockchain.Owned, Blockchain.Views;
      if b.hash in orphans {
        return;
      }
      PutOnShelf(chain.rules, delivered, chain.blocks, chain.Views(), waiting, hand, orphans + {b.hash}, []);
      assert hand[1..] == [];
      orphans := orphans + {b.hash};
      waiting := Shelve(waiting, b);
    }

    // Adds the orphans that waited for a block, then those that waited for them, and so on.
    method ResolveOrphanDescendants(parent: string, reconcile: bool)
      requires Sound([], orphans, [parent]) && parent in chain.blocks
      modifies this, chain
      ensures Valid() && delivered == old(delivered)
      ensures reconcile && old(chain.MempoolReplays()) ==> chain.MempoolReplays()
      ensures fresh(chain.repr - old(chain.repr))
    {
      hide Extend, Sorted, Blockchain.MempoolReplays, Blockchain.Valid, Blockchain.Owned, Blockchain.Views;
      var open := [parent];
      while open != []
        invariant Sound([], orphans, open) && delivered == old(delivered) && forall p :: p in open ==> p in chain.blocks
        invariant reconcile && old(chain.MempoolReplays()) ==> chain.MempoolReplays()
        invariant fresh(chain.repr - old(chain.repr))
        decreases delivered.Keys - chain.blocks.Keys, |open|
      {
        ghost var before := chain.blocks.Keys;
        var current := open[|open| - 1];
        assert open == open[..|open| - 1] + [current];
        open := ResolveOrphansOf(current, open[..|open| - 1], reconcile);
        ChainIsDelivered(chain.rules, delivered, chain.blocks, chain.Views(), waiting, [], orphans, open);
        if before != chain.blocks.Keys {
          var h :| h in chain.blocks.Keys && h !in before;
          assert h in delivered.Keys - before && h !in delivered.Keys - chain.blocks.Keys;
        }
      }
    }

    // Takes the orphans of one parent off the shelf and adds each; the accepted ones are opened.
    method ResolveOrphansOf(current: string, others: seq<string>, reconcile: bool) returns (open: seq<string>)
      requires Sound([], orphans, others + [current]) && current in chain.blocks
      modifies this, chain
      ensures Sound([], orphans, open) && delivered == old(delivered)
      ensures (forall p :: p in open ==> p in others || p in chain.blocks)
      ensures old(chain.blocks.Keys) <= chain.blocks.Keys && (old(chain.blocks.Keys) == chain.blocks.Keys ==> open == others)
      ensures reconcile && old(chain.MempoolReplays()) ==> chain.MempoolReplays()
      ensures fresh(chain.repr - old(chain.repr))
    {
      hide Extend, Sorted, Blockchain.MempoolReplays, Blockchain.Valid, Blockchain.Owned, Blockchain.Views, Blockchain.Verdict;
      TakeOffShelf(chain.rules, delivered, chain.blocks, chain.Views(), waiting, orphans, others, current);
      var hand := Get(waiting, current, []);
      waiting := waiting - {current};
      open := others;
      for i := 0 to |hand|
        invariant Sound(hand[i..], orphans, open) && delivered == old(delivered)
        invariant current in chain.blocks && forall p :: p in open ==> p in others || p in chain.blocks
        invariant old(chain.blocks.Keys) <= chain.blocks.Keys && (old(chain.blocks.Keys) == chain.blocks.Keys ==> open == others)
        invariant reconcile && old(chain.MempoolReplays()) ==> chain.MempoolReplays()
        invariant fresh(chain.repr - old(chain.repr))
      {
        var b := hand[i];
        assert hand[i..][1..] == hand[i + 1..];
        HandIsNew(chain.rules, delivered, chain.blocks, chain.Views(), waiting, hand[i..], orphans, open);
        var r := AddToChain(hand[i..], orphans, open, b, reconcile);
        match r {
          case Accepted =>
            orphans := orphans - {b.hash};
            open := open + [b.hash];
          case Invalid(_) =>
            orphans := orphans - {b.hash};
          case Duplicate =>
            // A waiting block is not in the chain.
            assert false;
          case Orphan =>
            // Its parent is.
            assert false;
        }
      }
    }

    // Delivers blocks one after the other, in whatever order and with whatever repeats they come.
    method Deliver(blocks: seq<Block>, reconcile: bool)
      requires Valid() && delivered == map[] && DistinctHashes(blocks)
      modifies this, chain
      ensures Valid() && delivered == ByHash(blocks)
      ensures reconcile && old(chain.MempoolReplays()) ==> chain.MempoolReplays()
    {
      hide Sorted, DistinctHashes, Blockchain.MempoolReplays, Blockchain.Valid, Blockchain.Owned, Blockchain.Views, Blockchain.Verdict;
      for i := 0 to |blocks|
        invariant Valid() && delivered == ByHash(blocks[..i])
        invariant reconcile && old(chain.MempoolReplays()) ==> chain.MempoolReplays()
        invariant fresh(chain.repr - old(chain.repr))
      {
        NextIsHonest(blocks, i);
        var status := AcceptOrStoreBlock(blocks[i], reconcile);
      }
      assert blocks[..|blocks|] == blocks;
    }
  }

  lemma NextIsHonest(blocks: seq<Block>, i: nat)
    requires i < |blocks| && DistinctHashes(blocks)
    ensures var before := ByHash(blocks[..i]); blocks[i].hash in before ==> before[blocks[i].hash] == blocks[i]
    ensures ByHash(blocks[..i + 1]) == ByHash(blocks[..i])[blocks[i].hash := blocks[i]]
  {
    assert blocks[..i + 1][..i] == blocks[..i];
    ByHashHolds(blocks[..i]);
  }

  // Two nodes that were delivered the same blocks, each in its own order and with its own
  // repeats, hold the same tree and the same states, and main tips of the same height.
  lemma OrderDoesNotMatter(a: Node, b: Node, blocks: seq<Block>, blocks': seq<Block>)
    requires a.Valid() && b.Valid() && a.chain.rules == b.chain.rules
    requires a.delivered == ByHash(blocks) && b.delivered == ByHash(blocks')
    requires DistinctHashes(blocks) && DistinctHashes(blocks') && forall x :: x in blocks <==> x in blocks'
    ensures a.chain.blocks == b.chain.blocks && a.chain.Views() == b.chain.Views()
    ensures a.chain.mainTip.Some? <==> b.chain.mainTip.Some?
    ensures a.chain.mainTip.Some? ==>
              && a.chain.mainTip.value in a.chain.blocks && b.chain.mainTip.value in a.chain.blocks
              && a.chain.blocks[a.chain.mainTip.value].id == a.chain.blocks[b.chain.mainTip.value].id
  {
    hide Sorted, Cached, ChildrenListed, DistinctHashes, Blockchain.Owned, Blockchain.Views;
    ByHashForgetsOrder(blocks, blocks');
    SameBlocksSameChain(a.chain.rules, a.delivered, a.chain.blocks, a.chain.Views(), a.waiting, a.orphans,
                        b.chain.blocks, b.chain.Views(), b.waiting, b.orphans);
  }

  // In particular for authentic blocks without version-1 transactions, under a hash that tells words
  // apart: such blocks carry distinct hashes.
  lemma TypedOrderDoesNotMatter(a: Node, b: Node, blocks: seq<Block>, blocks': seq<Block>)
    requires a.Valid() && b.Valid() && a.chain.rules == b.chain.rules && TellsWordsApart(a.chain.rules)
    requires a.delivered == ByHash(blocks) && b.delivered == ByHash(blocks')
    requires (forall x :: x in blocks ==> Typed(a.chain.rules, x)) && forall x :: x in blocks <==> x in blocks'
    ensures a.chain.blocks == b.chain.blocks && a.chain.Views() == b.chain.Views()
  {
    hide Blockchain.Owned, Blockchain.Views, Typed, TellsWordsApart, DistinctHashes, Sorted, Cached, Worthy;
    TypedBlocksAreDistinct(a.chain.rules, blocks);
    TypedBlocksAreDistinct(a.chain.rules, blocks');
    OrderDoesNotMatter(a, b, blocks, blocks');
  }

  // Between deliveries a stored orphan waits under its parent's hash, and that parent is unknown;
  // the chain holds exactly the blocks whose whole ancestry was delivered and validates.
  lemma OrphansWaitForTheUnknown(n: Node)
    requires n.Valid()
    ensures forall p :: p in n.waiting ==>
              && p != GENESIS_PREVIOUS_HASH && p !in n.chain.blocks
              && forall b :: b in n.waiting[p] ==> b.previousHash == p && b.hash in n.orphans
    ensures forall h :: h in n.orphans <==> h in n.delivered && Waits(n.waiting, n.delivered[h])
    ensures forall h :: h in n.chain.blocks <==> Worthy(n.chain.rules, n.delivered, h)
  {
    hide Cached, ChildrenListed, TipIsHighest, Refused, Worthy, Blockchain.Owned, Blockchain.Views;
    ChainIsWhatIsWorthy(n.chain.rules, n.delivered, n.chain.blocks, n.chain.Views(), n.waiting, n.orphans);
  }
}

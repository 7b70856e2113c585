/** Blocks that arrive before their parents: where every delivered block ends up, and why the order
    of delivery does not matter. */
module Orphans {
  import opened Base
  import opened Ledger
  import opened Blocks
  import opened BlockTheorems
  import opened BlockTree

  // Orphan blocks, listed by the parent they wait for.
  type Waiting = map<string, seq<Block>>

  ghost predicate Holds(delivered: Tree, b: Block) {
    b.hash in delivered && delivered[b.hash] == b
  }

  ghost predicate Waits(waiting: Waiting, b: Block) {
    b.previousHash in waiting && b in waiting[b.previousHash]
  }

  // The block's parent is known, and the block does not extend it.
  ghost predicate Refused(r: Rules, views: map<string, State>, b: Block) {
    (b.previousHash == GENESIS_PREVIOUS_HASH || b.previousHash in views) && Extend(r, b, Known(views, b)).Failure?
  }

  ghost predicate NoRepeats(blocks: seq<Block>) {
    forall i, j :: 0 <= i < j < |blocks| ==> blocks[i] != blocks[j]
  }

  // ---- Where every delivered block is -----------------------------------------------------

  // A delivered block is in the chain, or an orphan, or refused; an orphan is one that waits for
  // its parent or is in hand, about to be added.
  ghost predicate Classified(r: Rules, delivered: Tree, blocks: Tree, views: map<string, State>,
                             waiting: Waiting, hand: seq<Block>, orphans: set<string>)
  {
    && orphans <= delivered.Keys && orphans !! blocks.Keys
    && (forall h :: h in blocks ==> Holds(delivered, blocks[h]) && blocks[h].hash == h)
    && (forall h :: h in delivered ==>
          && delivered[h].hash == h
          && (h in orphans <==> Waits(waiting, delivered[h]) || delivered[h] in hand)
          && (h in blocks || h in orphans || Refused(r, views, delivered[h])))
  }

  // Nothing waits for a parent that is known, unless that parent is still open, that is, about to
  // have its orphans looked at; nothing is listed twice.
  ghost predicate Shelved(delivered: Tree, blocks: Tree, waiting: Waiting, hand: seq<Block>, open: seq<string>) {
    && (forall p :: p in waiting ==>
          && p != GENESIS_PREVIOUS_HASH && (p in blocks ==> p in open) && NoRepeats(waiting[p])
          && forall b :: b in waiting[p] ==> b.previousHash == p && Holds(delivered, b))
    && NoRepeats(hand)
    && (forall b :: b in hand ==> Holds(delivered, b) && !Waits(waiting, b))
  }

  ghost predicate Sorted(r: Rules, delivered: Tree, blocks: Tree, views: map<string, State>,
                         waiting: Waiting, hand: seq<Block>, orphans: set<string>, open: seq<string>)
  {
    && views.Keys == blocks.Keys
    && Classified(r, delivered, blocks, views, waiting, hand, orphans)
    && Shelved(delivered, blocks, waiting, hand, open)
  }

  lemma NothingDelivered(r: Rules)
    ensures Sorted(r, map[], map[], map[], map[], [], {}, [])
  {
  }

  // A refused block stays refused when the chain grows.
  lemma RefusalLasts(r: Rules, views: map<string, State>, b: Block, h: string, s: State)
    requires Refused(r, views, b) && h !in views
    ensures Refused(r, views[h := s], b)
  {
    hide Extend;
    if b.previousHash == GENESIS_PREVIOUS_HASH {
      GenesisNeedsNoParent(r, b, Known(views, b), Known(views[h := s], b));
    }
  }

  // ---- What happens to a block in hand ----------------------------------------------------

  // A new block is taken in hand.
  lemma TakeInHand(r: Rules, delivered: Tree, blocks: Tree, views: map<string, State>, waiting: Waiting, orphans: set<string>, b: Block)
    requires Sorted(r, delivered, blocks, views, waiting, [], orphans, []) && b.hash !in delivered
    ensures Sorted(r, delivered[b.hash := b], blocks, views, waiting, [b], orphans + {b.hash}, [])
    ensures b.hash !in orphans
  {
    hide Refused;
    var delivered' := delivered[b.hash := b];
    assert forall x :: Holds(delivered, x) ==> Holds(delivered', x);
    assert !Waits(waiting, b);
  }

  lemma HandIsNew(r: Rules, delivered: Tree, blocks: Tree, views: map<string, State>, waiting: Waiting,
                  hand: seq<Block>, orphans: set<string>, open: seq<string>)
    requires Sorted(r, delivered, blocks, views, waiting, hand, orphans, open) && hand != []
    ensures hand[0].hash !in blocks && hand[0].hash in orphans && blocks.Keys == views.Keys
  {
    hide Refused;
    assert hand[0] in hand;
  }

  // A block that comes again is still where it was.
  lemma RepeatChangesNothing(r: Rules, delivered: Tree, blocks: Tree, views: map<string, State>, waiting: Waiting, orphans: set<string>, b: Block)
    requires Sorted(r, delivered, blocks, views, waiting, [], orphans, []) && Holds(delivered, b)
    ensures blocks.Keys == views.Keys
    ensures || b.hash in blocks
            || (b.hash in orphans && b.previousHash != GENESIS_PREVIOUS_HASH && b.previousHash !in blocks)
            || Refused(r, views, b)
    ensures b.hash in orphans ==> b.hash !in blocks && b.previousHash != GENESIS_PREVIOUS_HASH && b.previousHash !in blocks
  {
    hide Extend;
  }

  lemma ChainIsDelivered(r: Rules, delivered: Tree, blocks: Tree, views: map<string, State>, waiting: Waiting,
                         hand: seq<Block>, orphans: set<string>, open: seq<string>)
    requires Sorted(r, delivered, blocks, views, waiting, hand, orphans, open)
    ensures blocks.Keys <= delivered.Keys
  {
    hide Refused;
  }

  lemma PutInChain(r: Rules, delivered: Tree, blocks: Tree, views: map<string, State>, waiting: Waiting,
                   hand: seq<Block>, orphans: set<string>, open: seq<string>, s: State)
    requires Sorted(r, delivered, blocks, views, waiting, hand, orphans, open) && hand != []
    requires hand[0].hash !in blocks
    ensures var b := hand[0];
            Sorted(r, delivered, blocks[b.hash := b], views[b.hash := s], waiting, hand[1..], orphans - {b.hash}, open + [b.hash])
  {
    hide Refused;
    var b, rest := hand[0], hand[1..];
    assert hand == [b] + rest;
    assert Holds(delivered, b);
    forall h | h in delivered && Refused(r, views, delivered[h])
      ensures Refused(r, views[b.hash := s], delivered[h])
    {
      RefusalLasts(r, views, delivered[h], b.hash, s);
    }
    OthersStayInHand(hand);
  }

  lemma OthersStayInHand(hand: seq<Block>)
    requires NoRepeats(hand) && hand != []
    ensures NoRepeats(hand[1..]) && forall x :: x in hand[1..] <==> x in hand && x != hand[0]
  {
    assert hand == [hand[0]] + hand[1..];
  }

  lemma Discard(r: Rules, delivered: Tree, blocks: Tree, views: map<string, State>, waiting: Waiting,
                hand: seq<Block>, orphans: set<string>, open: seq<string>)
    requires Sorted(r, delivered, blocks, views, waiting, hand, orphans, open) && hand != []
    requires Refused(r, views, hand[0])
    ensures Sorted(r, delivered, blocks, views, waiting, hand[1..], orphans - {hand[0].hash}, open)
  {
    hide Refused;
    assert Holds(delivered, hand[0]);
    OthersStayInHand(hand);
  }

  function Shelve(waiting: Waiting, b: Block): Waiting {
    waiting[b.previousHash := Get(waiting, b.previousHash, []) + [b]]
  }

  lemma PutOnShelf(r: Rules, delivered: Tree, blocks: Tree, views: map<string, State>, waiting: Waiting,
                   hand: seq<Block>, orphans: set<string>, open: seq<string>)
    requires Sorted(r, delivered, blocks, views, waiting, hand, orphans, open) && hand != []
    requires hand[0].previousHash != GENESIS_PREVIOUS_HASH && hand[0].previousHash !in blocks
    ensures Sorted(r, delivered, blocks, views, Shelve(waiting, hand[0]), hand[1..], orphans, open)
  {
    hide Refused;
    var b, waiting' := hand[0], Shelve(waiting, hand[0]);
    assert b in hand;
    OthersStayInHand(hand);
    ShelvesOne(waiting, b);
    forall x
      ensures Waits(waiting', x) <==> Waits(waiting, x) || x == b
    {
    }
  }

  lemma ShelvesOne(waiting: Waiting, b: Block)
    requires !Waits(waiting, b) && (b.previousHash in waiting ==> NoRepeats(waiting[b.previousHash]))
    ensures NoRepeats(Shelve(waiting, b)[b.previousHash])
  {
  }

  // The orphans of an open parent are taken in hand.
  lemma TakeOffShelf(r: Rules, delivered: Tree, blocks: Tree, views: map<string, State>, waiting: Waiting,
                     orphans: set<string>, open: seq<string>, p: string)
    requires Sorted(r, delivered, blocks, views, waiting, [], orphans, open + [p])
    ensures Sorted(r, delivered, blocks, views, waiting - {p}, Get(waiting, p, []), orphans, open)
    ensures forall b :: b in Get(waiting, p, []) ==> b.previousHash == p
  {
    hide Refused, NoRepeats;
    var hand := Get(waiting, p, []);
    NoneRepeats();
    forall x | Holds(delivered, x)
      ensures Waits(waiting, x) <==> Waits(waiting - {p}, x) || x in hand
    {
    }
  }

  lemma NoneRepeats()
    ensures NoRepeats([])
  {
  }

  // ---- Delivery in any order --------------------------------------------------------------

  // A branch of delivered blocks that starts at genesis and validates, on the generic path.
  ghost predicate Validates(r: Rules, delivered: Tree, branch: seq<Block>) {
    && branch != [] && (forall i :: 0 <= i < |branch| ==> Holds(delivered, branch[i]))
    && Replay(r, branch).Success?
  }

  ghost predicate EndsIn(branch: seq<Block>, h: string) {
    branch != [] && branch[|branch| - 1].hash == h
  }

  // Everything above genesis, down to the block, has been delivered and validates.
  ghost predicate Worthy(r: Rules, delivered: Tree, h: string) {
    exists branch :: Validates(r, delivered, branch) && EndsIn(branch, h)
  }

  lemma {:induction false} BranchIsStored(blocks: Tree, h: string)
    requires Rooted(blocks) && h in blocks
    ensures forall i :: 0 <= i < |Branch(blocks, h)| ==> exists k :: k in blocks && blocks[k] == Branch(blocks, h)[i]
    decreases Height(blocks, h)
  {
    hide Rooted;
    ParentIsBelow(blocks, h);
    if ParentOf(blocks, h).Some? {
      BranchIsStored(blocks, ParentOf(blocks, h).value);
    }
  }

  lemma ChainIsWorthy(r: Rules, delivered: Tree, blocks: Tree, views: map<string, State>, waiting: Waiting, orphans: set<string>, h: string)
    requires Sorted(r, delivered, blocks, views, waiting, [], orphans, []) && Cached(r, blocks, views) && h in blocks
    ensures Worthy(r, delivered, h)
  {
    hide Cached, Rooted, Replay, Refused, Shelved;
    CachedIsRooted(r, blocks, views);
    CacheIsReplay(r, blocks, views, h);
    BranchIsStored(blocks, h);
    var branch := Branch(blocks, h);
    assert Validates(r, delivered, branch) && EndsIn(branch, h);
  }

  lemma {:induction false} WorthyIsInChain(r: Rules, delivered: Tree, blocks: Tree, views: map<string, State>,
                                           waiting: Waiting, orphans: set<string>, branch: seq<Block>)
    requires Sorted(r, delivered, blocks, views, waiting, [], orphans, []) && Cached(r, blocks, views)
    requires Validates(r, delivered, branch)
    ensures var h := branch[|branch| - 1].hash; h in blocks && Replay(r, branch) == Success(views[h])
    decreases |branch|
  {
    hide Cached, Replay, Extend, NoRepeats;
    ReplayStep(r, branch);
    var b, front := branch[|branch| - 1], branch[..|branch| - 1];
    if front != [] {
      WorthyIsInChain(r, delivered, blocks, views, waiting, orphans, front);
      assert Known(views, b) == Some(Replay(r, front).value);
    } else {
      GenesisNeedsNoParent(r, b, None, Known(views, b));
    }
    assert Holds(delivered, b) && !Refused(r, views, b);
    assert b.hash in blocks;
    CachedBlock(r, blocks, views, b.hash);
  }

  // The chain holds exactly the delivered blocks whose whole ancestry was delivered and
  // validates: nothing else depends on the order in which they came.
  lemma ChainIsWhatIsWorthy(r: Rules, delivered: Tree, blocks: Tree, views: map<string, State>, waiting: Waiting, orphans: set<string>)
    requires Sorted(r, delivered, blocks, views, waiting, [], orphans, []) && Cached(r, blocks, views)
    ensures forall h :: h in blocks <==> Worthy(r, delivered, h)
    ensures forall h :: h in blocks ==> blocks[h] == delivered[h]
  {
    hide Cached, Worthy, Validates, Shelved, Refused;
    forall h
      ensures h in blocks <==> Worthy(r, delivered, h)
    {
      if h in blocks {
        ChainIsWorthy(r, delivered, blocks, views, waiting, orphans, h);
      } else {
        NotWorthy(r, delivered, blocks, views, waiting, orphans, h);
      }
    }
  }

  lemma NotWorthy(r: Rules, delivered: Tree, blocks: Tree, views: map<string, State>, waiting: Waiting, orphans: set<string>, h: string)
    requires Sorted(r, delivered, blocks, views, waiting, [], orphans, []) && Cached(r, blocks, views) && h !in blocks
    ensures !Worthy(r, delivered, h)
  {
    hide Cached, Validates, Sorted;
    if Worthy(r, delivered, h) {
      var branch :| Validates(r, delivered, branch) && EndsIn(branch, h);
      WorthyIsInChain(r, delivered, blocks, views, waiting, orphans, branch);
    }
  }

  // Two nodes to which the same blocks were delivered hold the same tree with the same states.
  lemma SameBlocksSameChain(r: Rules, delivered: Tree,
                            blocks: Tree, views: map<string, State>, waiting: Waiting, orphans: set<string>,
                            blocks': Tree, views': map<string, State>, waiting': Waiting, orphans': set<string>)
    requires Sorted(r, delivered, blocks, views, waiting, [], orphans, []) && Cached(r, blocks, views)
    requires Sorted(r, delivered, blocks', views', waiting', [], orphans', []) && Cached(r, blocks', views')
    ensures blocks == blocks' && views == views'
  {
    hide Cached, Worthy, Classified, Shelved, Rooted, SingleRoot, Replay, Branch;
    ChainIsWhatIsWorthy(r, delivered, blocks, views, waiting, orphans);
    ChainIsWhatIsWorthy(r, delivered, blocks', views', waiting', orphans');
    assert blocks == blocks';
    CachedIsRooted(r, blocks, views);
    forall h | h in blocks
      ensures views[h] == views'[h]
    {
      CacheIsReplay(r, blocks, views, h);
      CacheIsReplay(r, blocks, views', h);
    }
  }

  // ---- What was delivered -----------------------------------------------------------------

  function ByHash(blocks: seq<Block>): Tree {
    if blocks == [] then map[] else ByHash(blocks[..|blocks| - 1])[blocks[|blocks| - 1].hash := blocks[|blocks| - 1]]
  }

  // Distinct blocks carry distinct hashes.
  ghost predicate DistinctHashes(blocks: seq<Block>) {
    forall b, c :: b in blocks && c in blocks && b.hash == c.hash ==> b == c
  }

  lemma {:induction false} ByHashHolds(blocks: seq<Block>)
    requires DistinctHashes(blocks)
    ensures forall b :: b in blocks ==> Holds(ByHash(blocks), b)
    ensures forall h :: h in ByHash(blocks) ==> ByHash(blocks)[h] in blocks && ByHash(blocks)[h].hash == h
  {
    if blocks != [] {
      var front, last := blocks[..|blocks| - 1], blocks[|blocks| - 1];
      assert forall b :: b in blocks <==> b in front || b == last;
      ByHashHolds(front);
    }
  }

  lemma ByHashForgetsOrder(a: seq<Block>, b: seq<Block>)
    requires DistinctHashes(a) && DistinctHashes(b) && forall x :: x in a <==> x in b
    ensures ByHash(a) == ByHash(b)
  {
    ByHashHolds(a);
    ByHashHolds(b);
  }
}

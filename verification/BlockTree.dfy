/** The tree of blocks and their cached states, as values: what a well-formed tree is, the branch
    that leads to a block, ancestors, and why every cached state is the replay of its branch. */
module BlockTree {
  import opened Base
  import opened Ledger
  import opened Blocks
  import opened BlockTheorems

  type Tree = map<string, Block>

  // Block ids count the distance from a genesis block.
  ghost predicate Rooted(blocks: Tree) {
    forall h :: h in blocks ==>
      var b := blocks[h];
      if b.previousHash == GENESIS_PREVIOUS_HASH then b.id == 0
      else b.previousHash in blocks && b.id == blocks[b.previousHash].id + 1
  }

  function ParentOf(blocks: Tree, h: string): Option<string>
    requires h in blocks
  {
    if blocks[h].previousHash == GENESIS_PREVIOUS_HASH then None else Some(blocks[h].previousHash)
  }

  lemma {:induction false} IdsAreNatural(blocks: Tree, h: string)
    requires Rooted(blocks) && h in blocks
    ensures blocks[h].id >= 0
    decreases blocks, if blocks[h].id < 0 then 0 else blocks[h].id
  {
    if blocks[h].id < 0 {
      NoDescent(blocks, h, blocks.Keys);
    }
  }

  // A block with a negative id would need infinitely many ancestors.
  lemma {:induction false} NoDescent(blocks: Tree, h: string, above: set<string>)
    requires Rooted(blocks) && h in blocks && blocks[h].id < 0
    requires forall k :: k in blocks && blocks[k].id <= blocks[h].id ==> k in above
    ensures false
    decreases above
  {
    var p := blocks[h].previousHash;
    NoDescent(blocks, p, above - {h});
  }

  // ---- Ancestors --------------------------------------------------------------------------

  ghost predicate IsAncestor(blocks: Tree, a: string, d: string)
    requires Rooted(blocks) && d in blocks
    decreases Height(blocks, d)
  {
    a == d || (ParentOf(blocks, d).Some? && IsAncestor(blocks, a, ParentOf(blocks, d).value))
  }

  ghost function Height(blocks: Tree, h: string): nat
    requires Rooted(blocks) && h in blocks
    ensures Height(blocks, h) == blocks[h].id
  {
    IdsAreNatural(blocks, h);
    blocks[h].id
  }

  lemma {:induction false} AncestorsAreLower(blocks: Tree, a: string, d: string)
    requires Rooted(blocks) && d in blocks && IsAncestor(blocks, a, d)
    ensures a in blocks && blocks[a].id <= blocks[d].id && (blocks[a].id == blocks[d].id ==> a == d)
    decreases Height(blocks, d)
  {
    if a != d {
      AncestorsAreLower(blocks, a, ParentOf(blocks, d).value);
    }
  }

  ghost predicate IsCommonAncestor(blocks: Tree, a: string, left: string, right: string)
    requires Rooted(blocks) && left in blocks && right in blocks
  {
    IsAncestor(blocks, a, left) && IsAncestor(blocks, a, right)
  }

  // The common ancestor that every other common ancestor is an ancestor of.
  ghost predicate IsLowestCommonAncestor(blocks: Tree, a: string, left: string, right: string)
    requires Rooted(blocks) && left in blocks && right in blocks
  {
    && IsCommonAncestor(blocks, a, left, right)
    && a in blocks
    && forall x :: IsCommonAncestor(blocks, x, left, right) ==> IsAncestor(blocks, x, a)
  }

  // Walking up from the higher of two blocks, then from both, until they meet.
  ghost function Meeting(blocks: Tree, left: string, right: string): Option<string>
    requires Rooted(blocks) && left in blocks && right in blocks
    decreases Height(blocks, left) + Height(blocks, right)
  {
    var l, r := Height(blocks, left), Height(blocks, right);
    if left == right then Some(left)
    else if l > r then Meeting(blocks, ParentOf(blocks, left).value, right)
    else if r > l then Meeting(blocks, left, ParentOf(blocks, right).value)
    else if ParentOf(blocks, left).None? || ParentOf(blocks, right).None? then None
    else Meeting(blocks, ParentOf(blocks, left).value, ParentOf(blocks, right).value)
  }

  ghost predicate SingleRoot(blocks: Tree) {
    forall h, k :: h in blocks && k in blocks && ParentOf(blocks, h).None? && ParentOf(blocks, k).None? ==> h == k
  }

  // In a tree with one root the walk finds the lowest common ancestor.
  lemma {:induction false} MeetingIsLowest(blocks: Tree, left: string, right: string)
    requires Rooted(blocks) && SingleRoot(blocks) && left in blocks && right in blocks
    ensures var m := Meeting(blocks, left, right); m.Some? && IsLowestCommonAncestor(blocks, m.value, left, right)
    decreases Height(blocks, left) + Height(blocks, right)
  {
    hide Rooted, SingleRoot;
    if left != right {
      var l, r := Height(blocks, left), Height(blocks, right);
      var left' := if l >= r then StepUp(blocks, left, right) else left;
      var right' := if r >= l then StepUp(blocks, right, left) else right;
      MeetingIsLowest(blocks, left', right');
      forall x | IsCommonAncestor(blocks, x, left, right)
        ensures IsCommonAncestor(blocks, x, left', right')
      {
        AncestorsAreLower(blocks, x, left);
        AncestorsAreLower(blocks, x, right);
      }
    }
  }

  lemma OnlyTheRootIsLow(blocks: Tree, h: string)
    requires Rooted(blocks) && h in blocks
    ensures Height(blocks, h) == 0 <==> ParentOf(blocks, h).None?
  {
    if ParentOf(blocks, h).Some? {
      IdsAreNatural(blocks, ParentOf(blocks, h).value);
    }
  }

  lemma ParentIsBelow(blocks: Tree, h: string)
    requires Rooted(blocks) && h in blocks
    ensures if Height(blocks, h) == 0 then ParentOf(blocks, h).None?
            else var p := ParentOf(blocks, h); p.Some? && p.value in blocks && Height(blocks, p.value) + 1 == Height(blocks, h)
  {
    OnlyTheRootIsLow(blocks, h);
  }

  // The parent of a block that is not below another one.
  ghost function StepUp(blocks: Tree, h: string, other: string): (p: string)
    requires Rooted(blocks) && SingleRoot(blocks) && h in blocks && other in blocks
    requires h != other && Height(blocks, h) >= Height(blocks, other)
    ensures p in blocks && ParentOf(blocks, h) == Some(p) && Height(blocks, p) + 1 == Height(blocks, h)
  {
    OnlyTheRootIsLow(blocks, other);
    assert ParentOf(blocks, h).Some?;
    blocks[h].previousHash
  }

  // ---- Branches ---------------------------------------------------------------------------

  // The blocks from genesis to h.
  ghost function Branch(blocks: Tree, h: string): seq<Block>
    requires Rooted(blocks) && h in blocks
    ensures |Branch(blocks, h)| == Height(blocks, h) + 1 && Branch(blocks, h)[Height(blocks, h)] == blocks[h]
    decreases Height(blocks, h)
  {
    (if ParentOf(blocks, h).None? then [] else Branch(blocks, ParentOf(blocks, h).value)) + [blocks[h]]
  }

  // The transactions from above stop up to head, oldest first.
  ghost function TransactionsAbove(blocks: Tree, head: Option<string>, stop: Option<string>): seq<Transaction>
    requires Rooted(blocks) && (head.Some? ==> head.value in blocks)
    decreases head.Some?, if head.Some? then Height(blocks, head.value) else 0
  {
    if head.None? || head == stop then []
    else TransactionsAbove(blocks, ParentOf(blocks, head.value), stop) + blocks[head.value].transactions
  }

  // ---- Cached states ----------------------------------------------------------------------

  // Every block is stored under its hash and its cached state is what it makes of its parent's.
  ghost predicate Cached(r: Rules, blocks: Tree, states: map<string, State>) {
    && states.Keys == blocks.Keys
    && forall h :: h in blocks ==>
         && blocks[h].hash == h
         && (blocks[h].previousHash != GENESIS_PREVIOUS_HASH ==> blocks[h].previousHash in blocks)
         && Extend(r, blocks[h], Known(states, blocks[h])) == Success(states[h])
  }

  // The state a block's parent has, among those known.
  ghost function Known(views: map<string, State>, b: Block): Option<State> {
    if b.previousHash in views then Some(views[b.previousHash]) else None
  }

  lemma ExtendSetsHeight(r: Rules, b: Block, parent: Option<State>)
    requires Extend(r, b, parent).Success?
    ensures Extend(r, b, parent).value.height == b.id
    ensures b.previousHash == GENESIS_PREVIOUS_HASH ==> b.id == 0 && b.hash == GENESIS_HASH
  {
    hide SlowChild, FastChild;
    var p := if b.previousHash == GENESIS_PREVIOUS_HASH then EMPTY_STATE else parent.value;
    BuildChildIsSlowChild(r, b, p);
    ChildHeight(r, b, p);
  }

  lemma CachedIsRooted(r: Rules, blocks: Tree, states: map<string, State>)
    requires Cached(r, blocks, states)
    ensures Rooted(blocks)
    ensures forall h :: h in blocks ==> states[h].height == blocks[h].id
    ensures forall h :: h in blocks && blocks[h].previousHash == GENESIS_PREVIOUS_HASH ==> h == GENESIS_HASH
    ensures SingleRoot(blocks)
  {
    hide Extend;
    forall h | h in blocks
      ensures states[h].height == blocks[h].id
      ensures blocks[h].previousHash == GENESIS_PREVIOUS_HASH ==> blocks[h].id == 0 && h == GENESIS_HASH
      ensures blocks[h].previousHash != GENESIS_PREVIOUS_HASH ==> blocks[h].id == states[blocks[h].previousHash].height + 1
    {
      ExtendSetsHeight(r, blocks[h], Known(states, blocks[h]));
      if blocks[h].previousHash != GENESIS_PREVIOUS_HASH {
        ExtendNeedsNextId(r, blocks[h], Known(states, blocks[h]));
      }
    }
  }

  lemma CachedHeights(r: Rules, blocks: Tree, states: map<string, State>, h: string)
    requires Cached(r, blocks, states) && Rooted(blocks) && h in blocks && h in states
    ensures states[h].height == Height(blocks, h)
  {
    CachedIsRooted(r, blocks, states);
  }

  lemma ExtendNeedsNextId(r: Rules, b: Block, parent: Option<State>)
    requires Extend(r, b, parent).Success? && b.previousHash != GENESIS_PREVIOUS_HASH
    ensures parent.Some? && b.id == parent.value.height + 1
  {
  }

  lemma ExtendCases(r: Rules, b: Block, parent: Option<State>)
    ensures if b.previousHash == GENESIS_PREVIOUS_HASH then
              (match GenesisError(r, b)
               case Some(e) => Extend(r, b, parent) == Failure(e)
               case None => Extend(r, b, parent) == BuildChild(r, b, EMPTY_STATE))
            else parent.Some? ==>
              Extend(r, b, parent) == if b.id != parent.value.height + 1 then Failure(WrongHeight) else BuildChild(r, b, parent.value)
  {
    hide BuildChild;
  }

  lemma HeaderComesFirst(r: Rules, b: Block)
    ensures HeaderError(r, b).None? ==> RewardStructureError(b).None?
  {
  }

  // No stored block is another genesis block than b.
  lemma GenesisIsUnique(r: Rules, blocks: Tree, states: map<string, State>, b: Block)
    requires Cached(r, blocks, states) && GenesisError(r, b).None?
    ensures forall h :: h in blocks && blocks[h].previousHash == GENESIS_PREVIOUS_HASH ==> h == b.hash
  {
    CachedIsRooted(r, blocks, states);
  }

  // Every cached state, whether built by the fast path or not, is the replay of its branch on
  // the generic path.
  lemma {:induction false} CacheIsReplay(r: Rules, blocks: Tree, states: map<string, State>, h: string)
    requires Cached(r, blocks, states) && Rooted(blocks) && h in blocks
    ensures Replay(r, Branch(blocks, h)) == Success(states[h])
    decreases Height(blocks, h)
  {
    hide SlowChild, FastChild, HeaderError, GenesisError, Cached;
    CachedBlock(r, blocks, states, h);
    var b, branch := blocks[h], Branch(blocks, h);
    if ParentOf(blocks, h).None? {
      BuildChildIsSlowChild(r, b, EMPTY_STATE);
      assert branch == [b];
    } else {
      var p := b.previousHash;
      CachedBlock(r, blocks, states, p);
      CacheIsReplay(r, blocks, states, p);
      CachedIsRooted(r, blocks, states);
      BuildChildIsSlowChild(r, b, states[p]);
      assert branch[..|branch| - 1] == Branch(blocks, p);
    }
  }

  lemma ReplayStep(r: Rules, branch: seq<Block>)
    requires Replay(r, branch).Success?
    ensures branch != []
    ensures var b, front := branch[|branch| - 1], branch[..|branch| - 1];
            if front == [] then b.previousHash == GENESIS_PREVIOUS_HASH && Extend(r, b, None) == Replay(r, branch)
            else
              && Replay(r, front).Success? && b.previousHash == front[|front| - 1].hash && b.previousHash != GENESIS_PREVIOUS_HASH
              && Extend(r, b, Some(Replay(r, front).value)) == Replay(r, branch)
  {
    hide SlowChild, FastChild, HeaderError, GenesisError;
    var b := branch[|branch| - 1];
    BuildChildIsSlowChild(r, b, if |branch| == 1 then EMPTY_STATE else Replay(r, branch[..|branch| - 1]).value);
  }

  // ---- Growing the tree -------------------------------------------------------------------

  lemma ParentsAreKnown(r: Rules, blocks: Tree, states: map<string, State>)
    requires Cached(r, blocks, states)
    ensures states.Keys == blocks.Keys
    ensures forall h :: h in blocks && ParentOf(blocks, h).Some? ==> ParentOf(blocks, h).value in blocks
  {
  }

  lemma CachedBlock(r: Rules, blocks: Tree, states: map<string, State>, h: string)
    requires Cached(r, blocks, states) && h in blocks
    ensures var b := blocks[h];
            && b.hash == h && h in states
            && (b.previousHash == GENESIS_PREVIOUS_HASH || (b.previousHash in blocks && b.previousHash in states))
            && Extend(r, b, Known(states, b)) == Success(states[h])
  {
    hide Extend;
  }

  lemma CacheGrows(r: Rules, blocks: Tree, states: map<string, State>, b: Block, s: State)
    requires Cached(r, blocks, states) && b.hash !in blocks
    requires b.previousHash == GENESIS_PREVIOUS_HASH || b.previousHash in blocks
    requires Extend(r, b, Known(states, b)) == Success(s)
    ensures Cached(r, blocks[b.hash := b], states[b.hash := s])
  {
    hide Extend;
    var blocks', states' := blocks[b.hash := b], states[b.hash := s];
    forall h | h in blocks'
      ensures Extend(r, blocks'[h], Known(states', blocks'[h])) == Success(states'[h])
    {
      if h == b.hash {
        GenesisNeedsNoParent(r, b, Known(states', blocks'[h]), Known(states, b));
      } else {
        GenesisNeedsNoParent(r, blocks[h], Known(states', blocks[h]), Known(states, blocks[h]));
      }
    }
  }

  lemma GenesisNeedsNoParent(r: Rules, b: Block, p: Option<State>, q: Option<State>)
    requires b.previousHash == GENESIS_PREVIOUS_HASH || p == q
    ensures Extend(r, b, p) == Extend(r, b, q)
  {
  }

  ghost predicate EachOnce(hashes: seq<string>) {
    forall i, j :: 0 <= i < j < |hashes| ==> hashes[i] != hashes[j]
  }

  // children lists, for every block, the blocks that name it as their parent, each once.
  ghost predicate ChildrenListed(blocks: Tree, children: map<string, seq<string>>) {
    && children.Keys == blocks.Keys
    && (forall h, c :: h in blocks ==> (c in children[h] <==> c in blocks && ParentOf(blocks, c) == Some(h)))
    && (forall h :: h in blocks ==> EachOnce(children[h]))
  }

  function WithChild(children: map<string, seq<string>>, b: Block): map<string, seq<string>> {
    var entered := children[b.hash := []];
    if b.previousHash != GENESIS_PREVIOUS_HASH && b.previousHash in entered
    then entered[b.previousHash := entered[b.previousHash] + [b.hash]]
    else entered
  }

  lemma ChildrenGrow(blocks: Tree, children: map<string, seq<string>>, b: Block)
    requires ChildrenListed(blocks, children) && b.hash !in blocks
    requires forall h :: h in blocks && ParentOf(blocks, h).Some? ==> ParentOf(blocks, h).value in blocks
    requires b.previousHash == GENESIS_PREVIOUS_HASH || b.previousHash in blocks
    ensures ChildrenListed(blocks[b.hash := b], WithChild(children, b))
  {
    var blocks', children' := blocks[b.hash := b], WithChild(children, b);
    forall h, c | h in blocks'
      ensures c in children'[h] <==> c in blocks' && ParentOf(blocks', c) == Some(h)
    {
      assert c in blocks ==> ParentOf(blocks', c) == ParentOf(blocks, c);
    }
    forall h | h in blocks'
      ensures EachOnce(children'[h])
    {
      assert h in blocks ==> b.hash !in children[h];
    }
  }

  // The main tip is a block no other block is higher than.
  ghost predicate TipIsHighest(blocks: Tree, tip: Option<string>) {
    && (tip.None? <==> blocks == map[])
    && (tip.Some? ==> tip.value in blocks && forall h :: h in blocks ==> blocks[h].id <= blocks[tip.value].id)
  }

  function NewTip(blocks: Tree, tip: Option<string>, b: Block): Option<string>
    requires tip.Some? ==> tip.value in blocks
  {
    if tip.None? || b.id > blocks[tip.value].id then Some(b.hash) else tip
  }

  lemma TipGrows(blocks: Tree, tip: Option<string>, b: Block)
    requires TipIsHighest(blocks, tip) && b.hash !in blocks
    ensures TipIsHighest(blocks[b.hash := b], NewTip(blocks, tip, b))
  {
  }

  lemma TreeFacts(r: Rules, blocks: Tree, states: map<string, State>, tip: Option<string>)
    requires Cached(r, blocks, states) && TipIsHighest(blocks, tip)
    ensures Rooted(blocks) && states.Keys == blocks.Keys && (tip.Some? ==> tip.value in blocks)
  {
    CachedIsRooted(r, blocks, states);
  }

  // Comparing cached heights is comparing block ids.
  lemma TipByHeight(r: Rules, blocks: Tree, states: map<string, State>, tip: Option<string>, b: Block, height: int)
    requires Cached(r, blocks, states) && TipIsHighest(blocks, tip) && height == b.id
    ensures tip.Some? ==> tip.value in blocks && tip.value in states
    ensures NewTip(blocks, tip, b) == if tip.None? || height > states[tip.value].height then Some(b.hash) else tip
  {
    CachedIsRooted(r, blocks, states);
  }

  // Concatenating the transactions of blocks, last block first.
  function Unwound(branch: seq<Block>): seq<Transaction> {
    if branch == [] then [] else branch[|branch| - 1].transactions + Unwound(branch[..|branch| - 1])
  }

  lemma NothingAbove(blocks: Tree, head: Option<string>, stop: Option<string>)
    requires Rooted(blocks) && (head.Some? ==> head.value in blocks) && (head.None? || head == stop)
    ensures TransactionsAbove(blocks, head, stop) == [] && Unwound([]) == []
  {
  }

  // Walking one block down moves its transactions over.
  lemma WalkedDown(blocks: Tree, h: string, stop: Option<string>, branch: seq<Block>)
    requires Rooted(blocks) && h in blocks && Some(h) != stop
    ensures ParentOf(blocks, h).Some? ==> ParentOf(blocks, h).value in blocks && Height(blocks, ParentOf(blocks, h).value) < Height(blocks, h)
    ensures TransactionsAbove(blocks, Some(h), stop) + Unwound(branch)
         == TransactionsAbove(blocks, ParentOf(blocks, h), stop) + Unwound(branch + [blocks[h]])
  {
    hide Rooted;
    ParentIsBelow(blocks, h);
    UnwoundMore(branch, blocks[h]);
  }

  lemma UnwoundMore(branch: seq<Block>, b: Block)
    ensures Unwound(branch + [b]) == b.transactions + Unwound(branch)
  {
    assert (branch + [b])[..|branch|] == branch;
  }

  ghost function CommonAncestor(blocks: Tree, left: Option<string>, right: Option<string>): Option<string>
    requires Rooted(blocks)
  {
    if left.None? || right.None? then None
    else if left.value !in blocks || right.value !in blocks then None
    else Meeting(blocks, left.value, right.value)
  }
}

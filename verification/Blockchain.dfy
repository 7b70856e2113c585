/** The node's chain: blocks, children, cached states, the mempool and the main tip, updated in
    place by every operation. */
module Blockchains {
  import opened Base
  import opened Ledger
  import opened LedgerTheorems
  import opened Blocks
  import opened BlockTheorems
  import opened BlockAssembly
  import opened BlockTree
  import opened Mempool
  import opened ReorgOrder
  import opened ChainStates

  datatype PoolError = OnlyMinedRewards | PendingInvalid | Rejected(error: TxError)

  datatype MiningError = NoGenesis | BlockRefused(acceptance: Acceptance)

  datatype Acceptance = Accepted | Duplicate | Orphan | Invalid(error: BlockError)

  // Up from the higher of two blocks, then up from both, until they meet.
  method WalkToMeeting(blocks: Tree, left: string, right: string, height: int, otherHeight: int) returns (a: Option<string>)
    requires Rooted(blocks) && left in blocks && right in blocks
    requires height == Height(blocks, left) && otherHeight == Height(blocks, right)
    ensures a == Meeting(blocks, left, right)
  {
    hide Rooted;
    var l, r := left, right;
    var leftHeight, rightHeight := height, otherHeight;
    while leftHeight > rightHeight
      invariant l in blocks && leftHeight == Height(blocks, l)
      invariant Meeting(blocks, l, r) == Meeting(blocks, left, right)
    {
      ParentIsBelow(blocks, l);
      l := ParentOf(blocks, l).value;
      leftHeight := leftHeight - 1;
    }
    while rightHeight > leftHeight
      invariant r in blocks && rightHeight == Height(blocks, r) && leftHeight <= rightHeight
      invariant Meeting(blocks, l, r) == Meeting(blocks, left, right)
    {
      ParentIsBelow(blocks, r);
      r := ParentOf(blocks, r).value;
      rightHeight := rightHeight - 1;
    }
    while l != r
      invariant l in blocks && r in blocks && Height(blocks, l) == Height(blocks, r)
      invariant Meeting(blocks, l, r) == Meeting(blocks, left, right)
      decreases Height(blocks, l)
    {
      ParentIsBelow(blocks, l);
      ParentIsBelow(blocks, r);
      var leftParent, rightParent := ParentOf(blocks, l), ParentOf(blocks, r);
      if leftParent.None? || rightParent.None? {
        return None;
      }
      l, r := leftParent.value, rightParent.value;
    }
    return Some(l);
  }

  lemma HeightOf(s: ChainState)
    ensures s.View().height == s.height
  {
  }

  // Applies transactions one after the other until one fails, collecting the fees.
  method ApplyInOrder(c: Crypto, state: ChainState, txs: seq<Transaction>, height: int, collector: FeeCollector)
    returns (error: Option<TxError>)
    requires collector.fees == []
    modifies state.Parts(), collector
    ensures match ApplyAll(c, old(state.View()), txs, height)
            case Failure(e) => error == Some(e)
            case Success(a) => error == None && state.View() == a.state && Total(collector.fees) == a.feePaid
  {
    hide Apply, ApplyAll, Total;
    ghost var start := state.View();
    NothingApplied(c, start, txs, height);
    for i := 0 to |txs|
      invariant ApplyAll(c, start, txs[..i], height) == Success(Applied(state.View(), Total(collector.fees)))
    {
      NextApplies(c, start, txs, i, height, collector.fees);
      error := state.ApplyTransaction(c, txs[i], height, collector);
      if error.Some? {
        FailureSticks(c, start, txs, i + 1, height);
        return;
      }
    }
    assert txs[..|txs|] == txs;
    error := None;
  }

  // Applies a pool to a state and then one transaction more.
  method TryInOrder(c: Crypto, state: ChainState, pool: seq<Transaction>, tx: Transaction) returns (error: Option<PoolError>)
    modifies state.Parts()
    ensures error == None <==> OnTip(c, old(state.View()), pool + [tx]).Success?
    ensures OnTip(c, old(state.View()), pool).Success? ==> error != Some(PendingInvalid)
  {
    hide Apply, ApplyAll, TransactionIds;
    var collector := new FeeCollector();
    ghost var tip := state.View();
    var poolError := ApplyInOrder(c, state, pool, state.height + 1, collector);
    if poolError.Some? {
      FailureGrows(c, tip, pool, tx, tip.height + 1);
      return Some(PendingInvalid);
    }
    OneMore(c, tip, pool, tx, tip.height + 1);
    var txError := state.ApplyTransaction(c, tx, state.height + 1, null);
    return if txError.Some? then Some(Rejected(txError.value)) else None;
  }

  lemma FailureGrows(c: Crypto, s: State, txs: seq<Transaction>, tx: Transaction, height: int)
    requires ApplyAll(c, s, txs, height).Failure?
    ensures ApplyAll(c, s, txs + [tx], height).Failure?
  {
    hide Apply;
    assert (txs + [tx])[..|txs|] == txs;
  }

  function Fees(c: Crypto, tip: State, selected: seq<Transaction>): real {
    if OnTip(c, tip, selected).Success? then OnTip(c, tip, selected).value.feePaid else 0.0
  }

  // The state a selection leads to from a tip.
  ghost predicate Reaches(c: Crypto, tip: State, selected: seq<Transaction>, reached: State) {
    OnTip(c, tip, selected).Success? && OnTip(c, tip, selected).value.state == reached && reached.height == tip.height
  }

  // Repeated passes over the pool, best fee first, until a pass selects nobody or the block is full.
  method SelectByFee(c: Crypto, start: ChainState, pool: seq<Transaction>) returns (selected: seq<Transaction>)
    ensures selected == Selected(c, old(start.View()), pool)
  {
    hide Reaches, SelectionPass, ChainState.View;
    ghost var tip := start.View();
    var remaining := SortedByFee(pool);
    ghost var all := remaining;
    var state := start;
    selected := [];
    NothingSelected(c, tip);
    while remaining != [] && |selected| < MAX_SELECTED
      invariant Reaches(c, tip, selected, state.View()) && |selected| <= MAX_SELECTED
      invariant Selection(c, tip, remaining, selected).0 == Selection(c, tip, all, []).0
      decreases |remaining|
    {
      IdlePassTriesAll(c, tip, remaining, selected);
      var waiting, progress;
      state, selected, waiting, progress := SelectOnce(c, tip, state, remaining, selected);
      if !progress {
        break;
      }
      remaining := waiting;
    }
  }

  method SelectOnce(c: Crypto, ghost tip: State, start: ChainState, remaining: seq<Transaction>, before: seq<Transaction>)
    returns (state: ChainState, selected: seq<Transaction>, waiting: seq<Transaction>, progress: bool)
    requires Reaches(c, tip, before, start.View()) && |before| <= MAX_SELECTED
    ensures (selected, waiting) == SelectionPass(c, tip, remaining, before)
    ensures Reaches(c, tip, selected, state.View()) && |selected| <= MAX_SELECTED
    ensures progress <==> |waiting| < |remaining|
  {
    hide Apply, ApplyAll, Reaches, OnTip, SelectionPass, ChainState.View;
    state, selected, waiting, progress := start, before, [], false;
    NothingTried(c, tip, remaining, before);
    for i := 0 to |remaining|
      invariant (selected, waiting) == SelectionPass(c, tip, remaining[..i], before)
      invariant Reaches(c, tip, selected, state.View()) && |selected| <= MAX_SELECTED
      invariant |waiting| <= i && (progress <==> |waiting| < i)
    {
      var tx := remaining[i];
      PassNext(c, tip, remaining, before, i);
      if |selected| >= MAX_SELECTED {
        waiting := waiting + [tx];
      } else {
        HeightOf(state);
        OneMoreSelected(c, tip, selected, state.View(), tx);
        var next := TryOnCopy(c, state, tx);
        if next != null {
          state, selected, progress := next, selected + [tx], true;
        } else {
          waiting := waiting + [tx];
        }
      }
    }
    assert remaining[..|remaining|] == remaining;
  }

  lemma NothingSelected(c: Crypto, tip: State)
    ensures Reaches(c, tip, [], tip)
  {
  }

  lemma OneMoreSelected(c: Crypto, tip: State, selected: seq<Transaction>, reached: State, tx: Transaction)
    requires Reaches(c, tip, selected, reached)
    ensures match Apply(c, reached, tx, reached.height + 1)
            case Failure(_) => OnTip(c, tip, selected + [tx]).Failure?
            case Success(a) => OnTip(c, tip, selected + [tx]).Success? && Reaches(c, tip, selected + [tx], a.state)
  {
    hide Apply;
    OneMore(c, tip, selected, tx, tip.height + 1);
    if Apply(c, reached, tx, reached.height + 1).Success? {
      HeightStays(c, tip, selected + [tx], tip.height + 1);
    }
  }

  // The states and their dictionaries, which may be shared among them, are all in owned.
  ghost predicate OwnedBy(states: map<string, ChainState>, owned: set<object>) {
    forall h :: h in states ==> states[h].Objects() <= owned
  }

  ghost function ViewsOf(states: map<string, ChainState>, owned: set<object>): map<string, State>
    reads owned
    requires OwnedBy(states, owned)
  {
    map h | h in states :: states[h].View()
  }

  // The children listed for every block are those among the blocks already done.
  ghost predicate Listed(blocks: Tree, children: map<string, seq<string>>, done: set<string>) {
    && children.Keys == blocks.Keys
    && (forall h, c :: h in blocks ==> (c in children[h] <==> c in blocks && c in done && ParentOf(blocks, c) == Some(h)))
    && (forall h :: h in blocks ==> EachOnce(children[h]))
  }

  function WithListed(children: map<string, seq<string>>, parent: string, h: string): map<string, seq<string>> {
    children[parent := Get(children, parent, []) + [h]]
  }

  lemma NothingListed(blocks: Tree, children: map<string, seq<string>>)
    requires children == map h | h in blocks :: []
    ensures Listed(blocks, children, blocks.Keys - blocks.Keys)
  {
  }

  lemma ListOne(r: Rules, blocks: Tree, states: map<string, State>, children: map<string, seq<string>>, done: set<string>, h: string)
    requires Cached(r, blocks, states) && Listed(blocks, children, done) && h in blocks && h !in done
    ensures var p := blocks[h].previousHash;
            Listed(blocks, if p == GENESIS_PREVIOUS_HASH then children else WithListed(children, p, h), done + {h})
  {
    hide Cached;
    ParentsAreKnown(r, blocks, states);
    var p := blocks[h].previousHash;
    var more := if p == GENESIS_PREVIOUS_HASH then children else WithListed(children, p, h);
    forall k, c | k in blocks
      ensures c in more[k] <==> c in blocks && c in done + {h} && ParentOf(blocks, c) == Some(k)
    {
      assert c in children[k] <==> c in blocks && c in done && ParentOf(blocks, c) == Some(k);
      assert p != GENESIS_PREVIOUS_HASH ==> ParentOf(blocks, h) == Some(p);
    }
    forall k | k in blocks
      ensures EachOnce(more[k])
    {
      assert h !in children[k];
    }
  }

  lemma AllListed(blocks: Tree, children: map<string, seq<string>>, done: set<string>)
    requires Listed(blocks, children, done) && done == blocks.Keys
    ensures ChildrenListed(blocks, children)
  {
  }

  lemma OneGenesis(r: Rules, blocks: Tree, states: map<string, State>)
    requires Cached(r, blocks, states)
    ensures forall h :: h in blocks && blocks[h].previousHash == GENESIS_PREVIOUS_HASH ==> h == GENESIS_HASH
  {
    CachedIsRooted(r, blocks, states);
  }

  // The main tip is childless and no childless block is higher.
  lemma TipIsCandidate(r: Rules, blocks: Tree, states: map<string, State>, tip: Option<string>, children: map<string, seq<string>>)
    requires Cached(r, blocks, states) && TipIsHighest(blocks, tip) && ChildrenListed(blocks, children)
    ensures tip.None? <==> blocks == map[]
    ensures children.Keys == blocks.Keys
    ensures tip.Some? ==>
              && tip.value in blocks && tip.value in children && children[tip.value] == []
              && states.Keys == blocks.Keys && forall h :: h in blocks ==> states[h].height <= states[tip.value].height
  {
    hide Cached, Rooted, SingleRoot;
    TreeFacts(r, blocks, states, tip);
    CachedIsRooted(r, blocks, states);
    if tip.Some? {
      HighestIsChildless(blocks, tip, children);
    }
  }

  lemma HighestIsChildless(blocks: Tree, tip: Option<string>, children: map<string, seq<string>>)
    requires Rooted(blocks) && TipIsHighest(blocks, tip) && ChildrenListed(blocks, children) && tip.Some?
    ensures children[tip.value] == []
  {
    hide Rooted;
    if children[tip.value] != [] {
      var c := children[tip.value][0];
      assert c in children[tip.value];
      ParentIsBelow(blocks, c);
    }
  }

  // Reconciling with the head the chain already had resurrects nothing.
  lemma NothingAbandoned(c: Crypto, tipState: State, blocks: Tree, head: Option<string>, pending: seq<Transaction>)
    requires Rooted(blocks) && (head.Some? ==> head.value in blocks)
    ensures Reconciled(c, tipState, blocks, head, head, pending) == Retained(c, tipState, pending, {})
  {
    hide Retained;
    assert TransactionsAbove(blocks, head, CommonAncestor(blocks, head, head)) == [];
    assert TransactionIds(c, []) == {};
    assert [] + pending == pending;
  }

  class Blockchain {
    const rules: Rules
    var blocks: map<string, Block>
    var children: map<string, seq<string>>
    var states: map<string, ChainState>
    var pending: seq<Transaction>
    var mainTip: Option<string>

    ghost var repr: set<object>

    ghost predicate Owned()
      reads `states, `repr
    {
      this !in repr && OwnedBy(states, repr)
    }

    ghost function Views(): map<string, State>
      reads `states, `repr, repr
      requires Owned()
    {
      ViewsOf(states, repr)
    }

    lemma ViewOf(h: string)
      requires Owned() && h in states
      ensures Views()[h] == states[h].View() && Views()[h].height == states[h].height
    {
    }

    ghost predicate Valid()
      reads this, repr
      ensures Valid() ==> Owned()
    {
      && Owned()
      && Cached(rules, blocks, Views())
      && ChildrenListed(blocks, children)
      && TipIsHighest(blocks, mainTip)
      && NoRewards(pending)
    }

    ghost function TipState(): State
      reads `states, `mainTip, `repr, repr
      requires Owned()
    {
      if mainTip.Some? && mainTip.value in Views() then Views()[mainTip.value] else EMPTY_STATE
    }

    // Replaying the pending transactions in order on the main tip never fails.
    ghost predicate MempoolReplays()
      reads this, repr
      requires Owned()
    {
      Replayable(rules.crypto, TipState(), pending)
    }

    constructor (rules: Rules)
      ensures Valid() && MempoolReplays() && this.rules == rules
      ensures blocks == map[] && pending == [] && mainTip == None && repr == {} && Views() == map[]
    {
      this.rules := rules;
      blocks, children, states := map[], map[], map[];
      pending, mainTip := [], None;
      repr := {};
    }

    // ---- Building a child state -----------------------------------------------------------

    method BuildRewardOnlyChildState(b: Block, parent: ChainState) returns (child: ChainState?)
      requires RewardStructureError(b).None?
      ensures FastChild(rules, b, parent.View()).None? <==> child == null
      ensures child != null ==>
                && FastChild(rules, b, parent.View()) == Some(child.View())
                && fresh(child) && fresh(child.Parts() - parent.Parts())
    {
      if b.id == 0 || |b.transactions| != 1 {
        return null;
      }
      var reward := b.transactions[0];
      if !IsReward(reward) {
        return null;
      }
      if AuthenticityError(rules.crypto, reward).Some? {
        return null;
      }
      if RewardAmountError(b, 0.0).Some? {
        return null;
      }
      var balances := new Ref(Credited(parent.balances.v, reward.receiver, reward.amount));
      child := new ChainState.Sharing(parent, balances, b.id);
    }

    method BuildChildState(b: Block, parent: ChainState) returns (child: ChainState?, error: Option<BlockError>)
      requires Valid()
      ensures Valid() && Views() == old(Views())
      ensures match BuildChild(rules, b, old(parent.View()))
              case Failure(e) => child == null && error == Some(e)
              case Success(s) =>
                && error == None && child != null && child.View() == s
                && fresh(child.Objects() - parent.Objects()) && this !in child.Objects() - parent.Objects()
    {
      hide Cached, ChildrenListed, TipIsHighest, NoRewards, HeaderError, FastChild, SlowChild;
      HeaderComesFirst(rules, b);
      var headerError := HeaderError(rules, b);
      if headerError.Some? {
        return null, headerError;
      }
      var rewardOnly := BuildRewardOnlyChildState(b, parent);
      if rewardOnly != null {
        return rewardOnly, None;
      }
      child, error := ApplyBlock(b, parent);
    }

    method ApplyBlock(b: Block, parent: ChainState) returns (child: ChainState?, error: Option<BlockError>)
      requires RewardStructureError(b).None?
      ensures match SlowChild(rules, b, parent.View())
              case Failure(e) => child == null && error == Some(e)
              case Success(s) => error == None && child != null && child.View() == s && fresh(child) && fresh(child.Parts())
    {
      hide ApplyAll, Total, RewardAmountError, Rewards;
      var state := new ChainState.Own(parent.View());
      state.height := b.id;
      var collector := new FeeCollector();
      var txError := ApplyInOrder(rules.crypto, state, b.transactions, b.id, collector);
      if txError.Some? {
        return null, Some(BadTransaction(txError.value));
      }
      var amountError := RewardAmountError(b, Total(collector.fees));
      if amountError.Some? {
        return null, amountError;
      }
      return state, None;
    }

    // ---- Adding a block -------------------------------------------------------------------

    ghost function KnownParent(b: Block): Option<State>
      reads `states, `repr, repr
      requires Owned()
    {
      Known(Views(), b)
    }

    // What becomes of a block offered to the chain.
    ghost function Verdict(b: Block): Acceptance
      reads `states, `blocks, `repr, repr
      requires Owned()
    {
      if b.hash in blocks then Duplicate
      else if b.previousHash != GENESIS_PREVIOUS_HASH && b.previousHash !in blocks then Orphan
      else match Extend(rules, b, KnownParent(b))
        case Failure(e) => Invalid(e)
        case Success(_) => Accepted
    }

    method GetParentState(b: Block) returns (parent: ChainState?, error: Option<BlockError>)
      requires Valid() && (b.previousHash == GENESIS_PREVIOUS_HASH || b.previousHash in blocks)
      ensures Valid() && Views() == old(Views())
      ensures parent != null ==> fresh(parent.Objects() - repr)
      ensures if parent == null then error.Some? && Extend(rules, b, KnownParent(b)) == Failure(error.value)
              else this !in parent.Objects() && Extend(rules, b, KnownParent(b)) == BuildChild(rules, b, parent.View())
    {
      hide Extend, BuildChild, Cached, ChildrenListed, TipIsHighest, NoRewards, ChainState.Objects, ChainState.Parts, ChainState.View, GenesisError;
      ParentsAreKnown(rules, blocks, Views());
      ExtendCases(rules, b, KnownParent(b));
      if b.previousHash == GENESIS_PREVIOUS_HASH {
        var genesisError := GenesisError(rules, b);
        if genesisError.Some? {
          return null, genesisError;
        }
        GenesisIsUnique(rules, blocks, Views(), b);
        if exists h :: h in blocks && blocks[h].previousHash == GENESIS_PREVIOUS_HASH && h != b.hash {
          // The only hash a genesis block can have is the one this block has.
          assert false;
        }
        parent := new ChainState.Own(EMPTY_STATE);
        return parent, None;
      }
      ViewOf(b.previousHash);
      if b.id != states[b.previousHash].height + 1 {
        return null, Some(WrongHeight);
      }
      return states[b.previousHash], None;
    }

    method AddBlock(b: Block, reconcile: bool) returns (r: Acceptance)
      requires Valid()
      modifies this
      ensures Valid()
      ensures r == old(Verdict(b))
      ensures r != Accepted ==>
                && blocks == old(blocks) && children == old(children) && states == old(states)
                && pending == old(pending) && mainTip == old(mainTip)
      ensures r == Accepted ==> Entered(b, old(blocks), old(Views()), old(mainTip))
      ensures r == Accepted && old(mainTip).Some? ==>
                mainTip == if b.id > old(blocks)[old(mainTip).value].id then Some(b.hash) else old(mainTip)
      ensures r == Accepted && old(mainTip).None? ==> mainTip == Some(b.hash)
      ensures r == Accepted ==>
                pending == (if reconcile then ReconciledPool(old(mainTip), old(pending)) else old(pending))
      ensures r == Accepted && reconcile ==>
                && NothingLost(rules.crypto, TipState(), blocks, old(mainTip), mainTip, old(pending), pending)
                && ClaimsComeFirst(rules.crypto, TipState(), blocks, old(mainTip), mainTip, old(pending), pending)
      ensures r != Accepted ==> Views() == old(Views())
      ensures reconcile && (r == Accepted || old(MempoolReplays())) ==> MempoolReplays()
      ensures fresh(repr - old(repr))
    {
      hide Cached, ChildrenListed, TipIsHighest, Extend, BuildChild, NoRewards, Reconciled, NothingLost, ClaimsComeFirst, Replayable, Rooted, SingleRoot, CommonAncestor, IsLowestCommonAncestor,
           ChainState.Objects, ChainState.Parts, ChainState.View;
      ParentsAreKnown(rules, blocks, Views());
      if b.hash in blocks {
        return Duplicate;
      }
      if b.previousHash != GENESIS_PREVIOUS_HASH && b.previousHash !in states {
        return Orphan;
      }
      var parent, parentError := GetParentState(b);
      if parent == null {
        return Invalid(parentError.value);
      }
      var child, childError := BuildChildState(b, parent);
      if child == null {
        return Invalid(childError.value);
      }
      var previousHead := mainTip;
      Store(b, child);
      if reconcile {
        NothingIsLost(rules.crypto, TipState(), blocks, previousHead, mainTip, pending);
        CachedIsRooted(rules, blocks, Views());
        ReorgKeepsOrder(rules.crypto, TipState(), blocks, previousHead, mainTip, pending);
        ReconcilePendingTransactions(previousHead);
      }
      return Accepted;
    }

    // The chain is the earlier one with b entered.
    ghost predicate Entered(b: Block, before: Tree, views: map<string, State>, tip: Option<string>)
      reads `blocks, `mainTip, `states, `repr, repr
    {
      && blocks == before[b.hash := b] && Rooted(blocks)
      && Extend(rules, b, Known(views, b)).Success?
      && Owned() && Views() == views[b.hash := Extend(rules, b, Known(views, b)).value]
      && (tip.Some? ==> tip.value in before) && mainTip == NewTip(before, tip, b)
      && (mainTip.Some? ==> mainTip.value in blocks)
    }

    // Enters an accepted block and moves the main tip when the block is higher.
    method Store(b: Block, child: ChainState)
      requires Valid() && b.hash !in blocks
      requires b.previousHash == GENESIS_PREVIOUS_HASH || b.previousHash in blocks
      requires Extend(rules, b, KnownParent(b)) == Success(child.View()) && this !in child.Objects()
      modifies this
      ensures Valid() && Entered(b, old(blocks), old(Views()), old(mainTip)) && pending == old(pending)
      ensures repr == old(repr) + child.Objects()
    {
      hide Cached, ChildrenListed, TipIsHighest, Extend, NewTip, NoRewards, ChainState.Objects, ChainState.Parts, ChainState.View;
      ghost var views := Views();
      ParentsAreKnown(rules, blocks, views);
      ExtendSetsHeight(rules, b, KnownParent(b));
      HeightOf(child);
      CacheGrows(rules, blocks, views, b, child.View());
      ChildrenGrow(blocks, children, b);
      TipGrows(blocks, mainTip, b);
      TreeFacts(rules, blocks, views, mainTip);
      if mainTip.Some? {
        ViewOf(mainTip.value);
      }
      TipByHeight(rules, blocks, views, mainTip, b, child.height);
      var higher := mainTip.None? || child.height > states[mainTip.value].height;
      Enter(b, child);
      if higher {
        MoveTip(b.hash);
      }
      TreeFacts(rules, blocks, Views(), mainTip);
    }

    method MoveTip(h: string)
      requires Owned()
      modifies `mainTip
      ensures Owned() && mainTip == Some(h) && Views() == old(Views())
    {
      hide ChainState.Objects, ChainState.Parts, ChainState.View;
      mainTip := Some(h);
    }

    method Enter(b: Block, child: ChainState)
      requires Owned() && b.hash !in states && this !in child.Objects()
      modifies `blocks, `states, `children, `repr
      ensures Owned()
      ensures blocks == old(blocks)[b.hash := b] && children == WithChild(old(children), b)
      ensures Views() == old(Views()[b.hash := child.View()]) && repr == old(repr) + child.Objects()
    {
      hide ChainState.Objects, ChainState.Parts, ChainState.View, WithChild;
      blocks := blocks[b.hash := b];
      states := states[b.hash := child];
      children := WithChild(children, b);
      repr := repr + child.Objects();
    }

    // ---- Reorganisation -------------------------------------------------------------------

    method FindCommonAncestor(left: Option<string>, right: Option<string>) returns (a: Option<string>)
      requires Valid() && Rooted(blocks)
      ensures a == CommonAncestor(blocks, left, right)
    {
      hide Cached, ChildrenListed, TipIsHighest, NoRewards, ChainState.Objects, ChainState.Parts, ChainState.View, Meeting, Rooted;
      ParentsAreKnown(rules, blocks, Views());
      if left.None? || right.None? {
        return None;
      }
      if left.value !in states || right.value !in states {
        return None;
      }
      CachedHeights(rules, blocks, Views(), left.value);
      CachedHeights(rules, blocks, Views(), right.value);
      ViewOf(left.value);
      ViewOf(right.value);
      a := WalkToMeeting(blocks, left.value, right.value, states[left.value].height, states[right.value].height);
    }

    // The transactions of the blocks above stop up to head, oldest first.
    method CollectBranchTransactions(head: Option<string>, stop: Option<string>) returns (txs: seq<Transaction>)
      requires Rooted(blocks) && (head.Some? ==> head.value in blocks)
      ensures txs == TransactionsAbove(blocks, head, stop)
    {
      hide Rooted, TransactionsAbove, Unwound;
      NothingAbove(blocks, None, stop);
      var branch: seq<Block> := [];
      var current := head;
      while current.Some? && current != stop
        invariant current.Some? ==> current.value in blocks
        invariant TransactionsAbove(blocks, head, stop) == TransactionsAbove(blocks, current, stop) + Unwound(branch)
        decreases current.Some?, if current.Some? then Height(blocks, current.value) else 0
      {
        var block := blocks[current.value];
        WalkedDown(blocks, current.value, stop, branch);
        branch := branch + [block];
        current := ParentOf(blocks, current.value);
      }
      NothingAbove(blocks, current, stop);
      txs := [];
      var n := |branch|;
      assert branch[..n] == branch;
      while n > 0
        invariant 0 <= n <= |branch| && txs + Unwound(branch[..n]) == Unwound(branch)
      {
        n := n - 1;
        assert branch[..n + 1] == branch[..n] + [branch[n]];
        UnwoundMore(branch[..n], branch[n]);
        txs := txs + branch[n].transactions;
      }
    }

    // The pool after the main tip moved away from previousHead.
    ghost function ReconciledPool(previousHead: Option<string>, pool: seq<Transaction>): seq<Transaction>
      reads `blocks, `mainTip, `states, `repr, repr
      requires Owned() && Rooted(blocks)
      requires (previousHead.Some? ==> previousHead.value in blocks) && (mainTip.Some? ==> mainTip.value in blocks)
    {
      Reconciled(rules.crypto, TipState(), blocks, previousHead, mainTip, pool)
    }

    method ReconcilePendingTransactions(previousHead: Option<string>)
      requires Valid() && Rooted(blocks) && (previousHead.Some? ==> previousHead.value in blocks)
      requires mainTip.Some? ==> mainTip.value in blocks
      modifies `pending
      ensures Valid() && MempoolReplays() && Views() == old(Views())
      ensures pending == old(ReconciledPool(previousHead, pending))
    {
      hide Cached, ChildrenListed, TipIsHighest, ChainState.Objects, ChainState.Parts, ChainState.View,
           Replayable, Retained, Resurrected, TransactionIds, CommonAncestor, TransactionsAbove, NoRewards, Rooted;
      var c := rules.crypto;
      var ancestor := FindCommonAncestor(previousHead, mainTip);
      var previousTransactions := CollectBranchTransactions(previousHead, ancestor);
      var currentTransactions := CollectBranchTransactions(mainTip, ancestor);
      var currentIds := TransactionIds(c, currentTransactions);
      var candidates := Resurrected(c, previousTransactions, currentIds) + pending;
      NoRewardsAmong(c, previousTransactions, currentIds, pending);
      RetainedReplays(c, TipState(), candidates, currentIds);
      var kept := RetainCandidates(candidates, currentIds);
      SetPending(kept);
    }

    method CanonicalState() returns (state: ChainState)
      requires Valid()
      ensures Valid() && Views() == old(Views()) && TipState() == old(TipState())
      ensures state.View() == TipState() && fresh(state.Parts())
    {
      hide Cached, ChildrenListed, NoRewards, TipIsHighest, ChainState.Objects, ChainState.Parts, ChainState.View;
      TreeFacts(rules, blocks, Views(), mainTip);
      if mainTip.None? {
        state := new ChainState.Own(EMPTY_STATE);
      } else {
        state := new ChainState.Own(states[mainTip.value].View());
      }
    }

    // The candidates that apply in order on the main tip; each is tried on a copy of the state.
    method RetainCandidates(candidates: seq<Transaction>, currentIds: set<string>) returns (kept: seq<Transaction>)
      requires Valid()
      ensures Valid() && Views() == old(Views()) && TipState() == old(TipState())
      ensures kept == Retained(rules.crypto, TipState(), candidates, currentIds)
    {
      hide Cached, ChildrenListed, NoRewards, TipIsHighest, ChainState.Objects, ChainState.Parts, ChainState.View;
      var state := CanonicalState();
      kept := Filter(rules.crypto, state, candidates, currentIds);
    }

    // ---- The mempool ----------------------------------------------------------------------

    method AddTransaction(tx: Transaction) returns (error: Option<PoolError>)
      requires Valid()
      modifies `pending
      ensures Valid() && Views() == old(Views())
      ensures error == None <==> Replayable(rules.crypto, TipState(), old(pending) + [tx])
      ensures pending == if error == None then old(pending) + [tx] else old(pending)
      ensures old(MempoolReplays()) ==> MempoolReplays() && error != Some(PendingInvalid)
    {
      hide Cached, ChildrenListed, TipIsHighest, ApplyAll, Apply, ChainState.Objects, ChainState.Parts, ChainState.View;
      assert (pending + [tx])[|pending|] == tx;
      if IsReward(tx) {
        return Some(OnlyMinedRewards);
      }
      error := TryTransaction(tx);
      if error.None? {
        SetPending(pending + [tx]);
      }
    }

    // Whether the pool and then the transaction apply to a copy of the tip's state.
    method TryTransaction(tx: Transaction) returns (error: Option<PoolError>)
      requires Valid()
      ensures Valid() && Views() == old(Views()) && TipState() == old(TipState())
      ensures error == None <==> OnTip(rules.crypto, TipState(), pending + [tx]).Success?
      ensures OnTip(rules.crypto, TipState(), pending).Success? ==> error != Some(PendingInvalid)
    {
      hide Cached, ChildrenListed, NoRewards, TipIsHighest, ApplyAll, Apply, ChainState.Objects, ChainState.Parts, ChainState.View;
      var state := CanonicalState();
      error := TryInOrder(rules.crypto, state, pending, tx);
    }

    // ---- Mining ---------------------------------------------------------------------------

    // The block a miner makes of the pool; the search for its proof of work settles the seal.
    ghost function Candidate(miner: string, description: string, timestamp: string, seal: Seal): Block
      reads this, repr
      requires Valid() && mainTip.Some?
    {
      var selected := Selected(rules.crypto, TipState(), pending);
      MinedBlock(TipState().height + 1, mainTip.value, selected, Fees(rules.crypto, TipState(), selected), miner, description, timestamp, seal)
    }

    method SelectTransactions() returns (selected: seq<Transaction>)
      requires Valid()
      ensures Valid() && Views() == old(Views()) && TipState() == old(TipState())
      ensures selected == Selected(rules.crypto, TipState(), pending)
    {
      hide Cached, ChildrenListed, NoRewards, TipIsHighest, Selected, ChainState.Objects, ChainState.Parts, ChainState.View;
      var state := CanonicalState();
      selected := SelectByFee(rules.crypto, state, pending);
    }

    // The fees the transactions pay on top of the tip, before any reward is credited.
    method CalculateFees(selected: seq<Transaction>) returns (fees: real, height: int)
      requires Valid() && OnTip(rules.crypto, TipState(), selected).Success?
      ensures Valid() && Views() == old(Views()) && TipState() == old(TipState())
      ensures fees == Fees(rules.crypto, TipState(), selected) && height == TipState().height + 1
    {
      hide Cached, ChildrenListed, NoRewards, TipIsHighest, ApplyAll, ChainState.Objects, ChainState.Parts, ChainState.View;
      var collector := new FeeCollector();
      var state := CanonicalState();
      HeightOf(state);
      height := state.height + 1;
      var error := ApplyInOrder(rules.crypto, state, selected, height, collector);
      fees := Total(collector.fees);
    }

    method AssembleBlock(miner: string, description: string, timestamp: string, seal: Seal) returns (b: Block)
      requires Valid() && mainTip.Some?
      ensures Valid() && Views() == old(Views()) && TipState() == old(TipState())
      ensures b == Candidate(miner, description, timestamp, seal)
    {
      hide Cached, ChildrenListed, NoRewards, TipIsHighest, OnTip, Selected, ChainState.Objects, ChainState.Parts, ChainState.View;
      var selected := SelectTransactions();
      SelectedIsMaximal(rules.crypto, TipState(), pending);
      var fees, height := CalculateFees(selected);
      b := MinedBlock(height, mainTip.value, selected, fees, miner, description, timestamp, seal);
    }

    // A block one above the tip that names it as its parent: first the miner's reward of ten coins and
    // the fees the selection pays on the tip, then the selection.
    ghost predicate IsMined(b: Block, tip: State, head: string, pool: seq<Transaction>, miner: string, description: string, timestamp: string, seal: Seal)
    {
      && b.id == tip.height + 1 && b.previousHash == head && b.description == description && b.nonce == seal.nonce && b.hash == seal.hash
      && b.transactions != [] && b.transactions[1..] == Selected(rules.crypto, tip, pool)
      && OnTip(rules.crypto, tip, b.transactions[1..]).Success?
      && b.transactions[0] == Transaction("SYSTEM", miner, 10.0 + OnTip(rules.crypto, tip, b.transactions[1..]).value.feePaid, 0.0, 0,
                                          None, None, TransferFunds, timestamp, 2)
    }

    lemma CandidateIsMined(miner: string, description: string, timestamp: string, seal: Seal)
      requires Valid() && mainTip.Some?
      ensures IsMined(Candidate(miner, description, timestamp, seal), TipState(), mainTip.value, pending, miner, description, timestamp, seal)
    {
      hide Cached, ChildrenListed, NoRewards, TipIsHighest, Selected, OnTip, ChainState.Objects, ChainState.Parts, ChainState.View;
      SelectedIsMaximal(rules.crypto, TipState(), pending);
    }

    // Assembles a block, and adds it once its proof of work is found.
    method MinePendingTransactions(miner: string, description: string, timestamp: string, seal: Seal)
      returns (r: Result<Block, MiningError>)
      requires Valid()
      modifies this
      ensures Valid()
      ensures old(mainTip).None? ==> r == Failure(NoGenesis)
      ensures old(mainTip).Some? ==>
                var b := old(Candidate(miner, description, timestamp, seal));
                r == if old(Verdict(b)) == Accepted then Success(b) else Failure(BlockRefused(old(Verdict(b))))
      ensures r.Success? ==> old(mainTip).Some? && IsMined(r.value, old(TipState()), old(mainTip).value, old(pending), miner, description, timestamp, seal)
      ensures r.Success? ==>
                && Entered(r.value, old(blocks), old(Views()), old(mainTip))
                && pending == ReconciledPool(old(mainTip), old(pending)) && MempoolReplays()
      ensures r.Failure? ==> blocks == old(blocks) && states == old(states) && pending == old(pending) && mainTip == old(mainTip)
      ensures old(MiningIsSafe(miner, description, timestamp, seal)) ==> r.Success?
    {
      hide Cached, ChildrenListed, TipIsHighest, Extend, BuildChild, NewTip, NoRewards, Reconciled, Replayable,
           ChainState.Objects, ChainState.Parts, ChainState.View;
      if mainTip.None? {
        return Failure(NoGenesis);
      }
      var b := AssembleBlock(miner, description, timestamp, seal);
      SafeMiningIsAccepted(miner, description, timestamp, seal);
      CandidateIsMined(miner, description, timestamp, seal);
      var acceptance := AddBlock(b, true);
      return if acceptance == Accepted then Success(b) else Failure(BlockRefused(acceptance));
    }

    // The search has found a new hash that proves the work, and no contract run of the selection
    // has hit the miner's balance.
    ghost predicate MiningIsSafe(miner: string, description: string, timestamp: string, seal: Seal)
      reads this, repr
      requires Valid()
    {
      && mainTip.Some? && mainTip.value != GENESIS_PREVIOUS_HASH && miner != ""
      && seal.hash !in blocks && VerificationError(rules, Candidate(miner, description, timestamp, seal)).None?
      && SteadyAll(rules.crypto, TipState(), Selected(rules.crypto, TipState(), pending), TipState().height + 1, miner)
    }

    lemma SafeMiningIsAccepted(miner: string, description: string, timestamp: string, seal: Seal)
      requires Valid() && mainTip.Some?
      ensures MiningIsSafe(miner, description, timestamp, seal) ==>
                Verdict(Candidate(miner, description, timestamp, seal)) == Accepted
    {
      hide Cached, ChildrenListed, NoRewards, TipIsHighest, Selected, BuildChild, OnTip, SteadyAll, VerificationError,
           ChainState.Objects, ChainState.Parts, ChainState.View, Rooted;
      var c, tip, b := rules.crypto, TipState(), Candidate(miner, description, timestamp, seal);
      SelectedIsMaximal(c, tip, pending);
      TreeFacts(rules, blocks, Views(), mainTip);
      CachedHeights(rules, blocks, Views(), mainTip.value);
      assert KnownParent(b) == Some(tip);
      ExtendCases(rules, b, Some(tip));
      if MiningIsSafe(miner, description, timestamp, seal) {
        MinedBlockIsAccepted(rules, tip, mainTip.value, Selected(c, tip, pending), miner, description, timestamp, seal);
      }
    }

    // ---- Verifying the whole chain --------------------------------------------------------

    // The states recomputed so far, all of them the ones that are cached.
    ghost predicate Recomputed(temp: map<string, ChainState>, owned: set<object>)
      reads `states, `repr, repr, owned
      requires Owned()
    {
      && this !in owned && OwnedBy(temp, owned) && temp.Keys <= states.Keys
      && forall h :: h in temp ==> ViewsOf(temp, owned)[h] == Views()[h]
    }

    // Recomputes every state and every list of children, in any order; on a chain that was only
    // ever changed by these methods it succeeds and changes nothing but the order of children.
    method VerifyChain() returns (ok: bool)
      requires Valid()
      modifies this
      ensures ok && Valid() && Views() == old(Views()) && blocks == old(blocks) && mainTip == old(mainTip)
      ensures pending == old(Retained(rules.crypto, TipState(), pending, {})) && MempoolReplays()
      ensures old(MempoolReplays()) && NoIdClashes(rules.crypto) ==> pending == old(pending)
    {
      hide Cached, ChildrenListed, NoRewards, TipIsHighest, ChainState.Objects, ChainState.Parts, ChainState.View, Replayable, Reconciled, Retained;
      TreeFacts(rules, blocks, Views(), mainTip);
      ghost var owner;
      var temp, tempChildren, genesisBlocks;
      temp, tempChildren, genesisBlocks, owner := RecomputeAll();
      if genesisBlocks > 1 {
        return false;
      }
      var previousHead := mainTip;
      Replace(temp, owner, tempChildren);
      NothingAbandoned(rules.crypto, TipState(), blocks, mainTip, pending);
      if MempoolReplays() && NoIdClashes(rules.crypto) {
        PoolSettles(rules.crypto, TipState(), pending);
      }
      ReconcilePendingTransactions(previousHead);
      return true;
    }

    method RecomputeAll() returns (temp: map<string, ChainState>, tempChildren: map<string, seq<string>>, genesisBlocks: nat, ghost owner: set<object>)
      requires Valid() && Rooted(blocks)
      ensures Valid() && Views() == old(Views()) && Recomputed(temp, owner) && temp.Keys == blocks.Keys
      ensures ChildrenListed(blocks, tempChildren) && genesisBlocks <= 1
    {
      hide Cached, ChildrenListed, NoRewards, TipIsHighest, ChainState.Objects, ChainState.Parts, ChainState.View, Recomputed, Rooted, Listed;
      temp, owner, genesisBlocks := map[], {}, 0;
      tempChildren := map h | h in blocks :: [];
      var todo := blocks.Keys;
      NothingRecomputed();
      NothingListed(blocks, tempChildren);
      OneGenesis(rules, blocks, Views());
      while todo != {}
        invariant todo <= blocks.Keys && Valid() && Views() == old(Views())
        invariant Recomputed(temp, owner) && blocks.Keys - todo <= temp.Keys
        invariant Listed(blocks, tempChildren, blocks.Keys - todo)
        invariant genesisBlocks <= 1 && (genesisBlocks == 1 ==> GENESIS_HASH !in todo)
        decreases |todo|
      {
        var h :| h in todo;
        ListOne(rules, blocks, Views(), tempChildren, blocks.Keys - todo, h);
        if blocks[h].previousHash == GENESIS_PREVIOUS_HASH {
          genesisBlocks := genesisBlocks + 1;
        } else {
          tempChildren := WithListed(tempChildren, blocks[h].previousHash, h);
        }
        temp, owner := ComputeState(temp, owner, h);
        assert blocks.Keys - (todo - {h}) == blocks.Keys - todo + {h};
        todo := todo - {h};
      }
      RecomputedKeys(temp, owner);
      AllListed(blocks, tempChildren, blocks.Keys - todo);
    }

    lemma NothingRecomputed()
      requires Owned()
      ensures Recomputed(map[], {})
    {
    }

    lemma RecomputedKeys(temp: map<string, ChainState>, owned: set<object>)
      requires Valid() && Recomputed(temp, owned) && blocks.Keys <= temp.Keys
      ensures temp.Keys == blocks.Keys && OwnedBy(temp, owned) && ViewsOf(temp, owned) == Views() && this !in owned
    {
      hide ChildrenListed, NoRewards, TipIsHighest, ChainState.Objects, ChainState.Parts, ChainState.View, Cached;
      ParentsAreKnown(rules, blocks, Views());
    }

    // Puts the recomputed states in place and chooses the tip anew.
    method Replace(temp: map<string, ChainState>, ghost owned: set<object>, tempChildren: map<string, seq<string>>)
      requires Valid() && Recomputed(temp, owned) && temp.Keys == blocks.Keys && ChildrenListed(blocks, tempChildren)
      modifies `states, `children, `mainTip, `repr
      ensures Valid() && Views() == old(Views()) && mainTip == old(mainTip)
    {
      hide Cached, ChildrenListed, NoRewards, TipIsHighest, ChainState.Objects, ChainState.Parts, ChainState.View, Recomputed;
      RecomputedKeys(temp, owned);
      var tip := SelectBestTip(temp, owned, tempChildren);
      states, children, repr := temp, tempChildren, owned;
      mainTip := tip;
    }

    // A childless block of greatest height: the main tip, when it is one.
    method SelectBestTip(temp: map<string, ChainState>, ghost owned: set<object>, tempChildren: map<string, seq<string>>) returns (tip: Option<string>)
      requires Valid() && Recomputed(temp, owned) && temp.Keys == blocks.Keys && ChildrenListed(blocks, tempChildren)
      ensures tip == mainTip
    {
      hide Cached, NoRewards, ChainState.Objects, ChainState.Parts, ChainState.View, TipIsHighest, ChildrenListed, Recomputed;
      RecomputedKeys(temp, owned);
      TipIsCandidate(rules, blocks, Views(), mainTip, tempChildren);
      forall h | h in temp
        ensures temp[h].height == Views()[h].height
      {
        HeightOf(temp[h]);
      }
      if temp == map[] {
        return None;
      }
      var tipHashes := set h | h in temp && tempChildren[h] == [];
      var candidates := set h | h in tipHashes && forall k :: k in tipHashes ==> temp[k].height <= temp[h].height;
      if mainTip.Some? && mainTip.value in candidates {
        return mainTip;
      }
      // The main tip is a candidate.
      assert false;
    }

    // The state of a block, computed from its parent's unless it is known already.
    method ComputeState(temp: map<string, ChainState>, ghost owned: set<object>, h: string)
      returns (known: map<string, ChainState>, ghost owner: set<object>)
      requires Valid() && Rooted(blocks) && h in blocks && Recomputed(temp, owned)
      ensures Valid() && Views() == old(Views()) && Recomputed(known, owner)
      ensures temp.Keys <= known.Keys && h in known
      decreases Height(blocks, h)
    {
      hide Cached, ChildrenListed, NoRewards, TipIsHighest, Extend, BuildChild, ChainState.Objects, ChainState.Parts, ChainState.View, Rooted, Recomputed;
      known, owner := temp, owned;
      if h in temp {
        return;
      }
      CachedBlock(rules, blocks, Views(), h);
      ParentIsBelow(blocks, h);
      if blocks[h].previousHash == GENESIS_PREVIOUS_HASH {
        known, owner := RebuildGenesis(known, owner, h);
      } else {
        known, owner := ComputeState(known, owner, blocks[h].previousHash);
        known, owner := RebuildFromParent(known, owner, h);
      }
    }

    method RebuildGenesis(temp: map<string, ChainState>, ghost owned: set<object>, h: string)
      returns (known: map<string, ChainState>, ghost owner: set<object>)
      requires Valid() && h in blocks && blocks[h].previousHash == GENESIS_PREVIOUS_HASH && Recomputed(temp, owned)
      ensures Valid() && Views() == old(Views()) && Recomputed(known, owner)
      ensures known.Keys == temp.Keys + {h}
    {
      hide Cached, ChildrenListed, NoRewards, TipIsHighest, Extend, BuildChild, ChainState.Objects, ChainState.Parts, ChainState.View, Recomputed;
      CachedBlock(rules, blocks, Views(), h);
      var parent, parentError := GetParentState(blocks[h]);
      known, owner := Rebuild(temp, owned, h, parent);
    }

    method RebuildFromParent(temp: map<string, ChainState>, ghost owned: set<object>, h: string)
      returns (known: map<string, ChainState>, ghost owner: set<object>)
      requires Valid() && h in blocks && blocks[h].previousHash != GENESIS_PREVIOUS_HASH && Recomputed(temp, owned)
      requires blocks[h].previousHash in temp
      ensures Valid() && Views() == old(Views()) && Recomputed(known, owner)
      ensures known.Keys == temp.Keys + {h}
    {
      hide Cached, ChildrenListed, NoRewards, TipIsHighest, Extend, BuildChild, ChainState.Objects, ChainState.Parts, ChainState.View;
      CachedBlock(rules, blocks, Views(), h);
      ExtendCases(rules, blocks[h], KnownParent(blocks[h]));
      known, owner := Rebuild(temp, owned, h, temp[blocks[h].previousHash]);
    }

    method Rebuild(temp: map<string, ChainState>, ghost owned: set<object>, h: string, parent: ChainState)
      returns (known: map<string, ChainState>, ghost owner: set<object>)
      requires Valid() && h in blocks && h in states && Recomputed(temp, owned) && this !in parent.Objects()
      requires BuildChild(rules, blocks[h], parent.View()) == Success(Views()[h])
      ensures Valid() && Views() == old(Views()) && Recomputed(known, owner)
      ensures known.Keys == temp.Keys + {h}
    {
      hide Cached, ChildrenListed, NoRewards, TipIsHighest, BuildChild, ChainState.Objects, ChainState.Parts, ChainState.View;
      var child, childError := BuildChildState(blocks[h], parent);
      known, owner := temp[h := child], owned + child.Objects();
    }

    method SetPending(txs: seq<Transaction>)
      requires Valid() && NoRewards(txs)
      modifies `pending
      ensures Valid() && pending == txs && Views() == old(Views()) && TipState() == old(TipState())
    {
      hide Cached, ChildrenListed, TipIsHighest, NoRewards, ChainState.Objects, ChainState.Parts, ChainState.View;
      pending := txs;
    }
  }

  // Tries a transaction on a copy of a state; null when it does not apply.
  method TryOnCopy(c: Crypto, state: ChainState, tx: Transaction) returns (next: ChainState?)
    ensures state.View() == old(state.View())
    ensures match Apply(c, old(state.View()), tx, state.height + 1)
            case Failure(_) => next == null
            case Success(a) => next != null && next.View() == a.state && next.height == state.height
  {
    hide Apply;
    var trial := new ChainState.Own(state.View());
    var error := trial.ApplyTransaction(c, tx, state.height + 1, null);
    return if error.None? then trial else null;
  }

  // Walks through the candidates on top of a state and keeps those that apply, each tried on a copy.
  method Filter(c: Crypto, start: ChainState, candidates: seq<Transaction>, currentIds: set<string>) returns (kept: seq<Transaction>)
    ensures kept == Retained(c, old(start.View()), candidates, currentIds)
  {
    hide Apply, ApplyAll, TransactionIds, Retained, ChainState.View;
    HeightOf(start);
    ghost var tip, height := start.View(), start.height + 1;
    var state: ChainState := start;
    kept := [];
    var seen: set<string> := {};
    NothingKept(c, tip, candidates, currentIds, height);
    for i := 0 to |candidates|
      invariant kept == Retained(c, tip, candidates[..i], currentIds) && seen == TransactionIds(c, kept)
      invariant state.height == start.height
      invariant ApplyAll(c, tip, kept, height).Success? && ApplyAll(c, tip, kept, height).value.state == state.View()
    {
      RetainedNext(c, tip, candidates, currentIds, i);
      var tx := candidates[i];
      if IdOf(c, tx) !in seen && IdOf(c, tx) !in currentIds {
        OneMore(c, tip, kept, tx, height);
        var next := TryOnCopy(c, state, tx);
        if next != null {
          state := next;
          kept := kept + [tx];
          seen := seen + {IdOf(c, tx)};
        }
      }
    }
    assert candidates[..|candidates|] == candidates;
  }

  lemma OneMore(c: Crypto, s: State, txs: seq<Transaction>, tx: Transaction, height: int)
    requires ApplyAll(c, s, txs, height).Success?
    ensures match Apply(c, ApplyAll(c, s, txs, height).value.state, tx, height)
            case Failure(e) => ApplyAll(c, s, txs + [tx], height) == Failure(e)
            case Success(a) =>
              ApplyAll(c, s, txs + [tx], height) == Success(Applied(a.state, ApplyAll(c, s, txs, height).value.feePaid + a.feePaid))
    ensures TransactionIds(c, txs + [tx]) == TransactionIds(c, txs) + {IdOf(c, tx)}
  {
    hide Apply;
    assert (txs + [tx])[..|txs|] == txs;
    var more := txs + [tx];
    forall id | id in TransactionIds(c, txs) + {IdOf(c, tx)}
      ensures id in TransactionIds(c, more)
    {
      if id in TransactionIds(c, txs) {
        var i :| 0 <= i < |txs| && IdOf(c, txs[i]) == id;
        assert more[i] == txs[i];
      } else {
        assert more[|txs|] == tx;
      }
    }
  }

  lemma NothingKept(c: Crypto, s: State, candidates: seq<Transaction>, currentIds: set<string>, height: int)
    ensures ApplyAll(c, s, [], height) == Success(Applied(s, 0.0)) && TransactionIds(c, []) == {}
    ensures Retained(c, s, candidates[..0], currentIds) == []
  {
  }

  // Every state a chain has stored is the generic replay of its branch; its balances are never
  // negative and add up to its height times the mining reward, its nonces count the transactions
  // of the branch, and every reveal opens a commitment.
  lemma StoredStatesAreSound(chain: Blockchain, h: string)
    requires chain.Valid() && h in chain.blocks
    ensures h in chain.Views() && Rooted(chain.blocks)
    ensures var s, branch := chain.Views()[h], Branch(chain.blocks, h);
            && Replay(chain.rules, branch) == Success(s) && s.height == chain.blocks[h].id == |branch| - 1
            && NonNegative(s.balances) && Sum(s.balances) == s.height as real * MINING_REWARD
            && (forall a :: NonceOf(s, a) == CountOf(Flatten(branch), a))
            && RevealsOpenCommitments(chain.rules.crypto, s)
  {
    hide Cached, ChildrenListed, TipIsHighest, NoRewards, Replay, Rooted, Blockchain.Owned, Blockchain.Views, NonceOf, CountOf, Flatten,
         NonNegative, RevealsOpenCommitments, Sum;
    TreeFacts(chain.rules, chain.blocks, chain.Views(), chain.mainTip);
    CacheIsReplay(chain.rules, chain.blocks, chain.Views(), h);
    var branch := Branch(chain.blocks, h);
    SupplyIsHeightTimesReward(chain.rules, branch);
    NoncesCountTransactions(chain.rules, branch);
    HistoryIsWriteOnce(chain.rules, branch, |branch|);
  }
}

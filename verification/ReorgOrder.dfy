/** In which order transactions come back into the pool when the chain changes its tip, and in which
    order they go from the pool into a block. */
module ReorgOrder {
  import opened Base
  import opened Ledger
  import opened LedgerTheorems
  import opened Blocks
  import opened BlockTheorems
  import opened BlockTree
  import opened Mempool

  // ---- What was abandoned -----------------------------------------------------------------

  // The transactions of the branch to head, from above one of its blocks, oldest block first.
  ghost function AboveOnBranch(blocks: Tree, head: string, ancestor: string): seq<Transaction>
    requires Rooted(blocks) && head in blocks && ancestor in blocks && Height(blocks, ancestor) <= Height(blocks, head)
  {
    Flatten(Branch(blocks, head)[Height(blocks, ancestor) + 1..])
  }

  lemma FlattenAppend(branch: seq<Block>, b: Block)
    ensures Flatten(branch + [b]) == Flatten(branch) + b.transactions
  {
    assert (branch + [b])[..|branch|] == branch;
  }

  lemma {:induction false} CollectedFromTheBranch(blocks: Tree, head: string, ancestor: string)
    requires Rooted(blocks) && head in blocks && ancestor in blocks && IsAncestor(blocks, ancestor, head)
    ensures Height(blocks, ancestor) <= Height(blocks, head)
    ensures TransactionsAbove(blocks, Some(head), Some(ancestor)) == AboveOnBranch(blocks, head, ancestor)
    decreases Height(blocks, head)
  {
    hide Rooted;
    AncestorsAreLower(blocks, ancestor, head);
    var n := Height(blocks, ancestor) + 1;
    if head != ancestor {
      var p := ParentOf(blocks, head).value;
      ParentIsBelow(blocks, head);
      CollectedFromTheBranch(blocks, p, ancestor);
      assert Branch(blocks, head)[n..] == Branch(blocks, p)[n..] + [blocks[head]];
      FlattenAppend(Branch(blocks, p)[n..], blocks[head]);
    } else {
      assert Branch(blocks, head)[n..] == [];
    }
  }

  predicate SharesId(c: Crypto, tx: Transaction, txs: seq<Transaction>) {
    exists i :: 0 <= i < |txs| && IdOf(c, txs[i]) == IdOf(c, tx)
  }

  // The user transactions among the abandoned ones that the new branch does not hold, in order.
  function Homeless(c: Crypto, abandoned: seq<Transaction>, entered: seq<Transaction>): seq<Transaction> {
    if abandoned == [] then [] else
    var last := abandoned[|abandoned| - 1];
    Homeless(c, abandoned[..|abandoned| - 1], entered)
    + (if last.sender != "SYSTEM" && !SharesId(c, last, entered) then [last] else [])
  }

  lemma {:induction false} ResurrectedAppend(c: Crypto, txs: seq<Transaction>, tx: Transaction, ids: set<string>)
    ensures Resurrected(c, txs + [tx], ids)
         == Resurrected(c, txs, ids) + (if !IsReward(tx) && IdOf(c, tx) !in ids then [tx] else [])
  {
    if txs == [] {
      assert txs + [tx] == [tx];
    } else {
      ResurrectedAppend(c, txs[1..], tx, ids);
      assert (txs + [tx])[1..] == txs[1..] + [tx];
    }
  }

  lemma {:induction false} TheHomelessAreResurrected(c: Crypto, abandoned: seq<Transaction>, entered: seq<Transaction>)
    ensures Resurrected(c, abandoned, TransactionIds(c, entered)) == Homeless(c, abandoned, entered)
  {
    hide IdOf;
    if abandoned != [] {
      var front, last := abandoned[..|abandoned| - 1], abandoned[|abandoned| - 1];
      TheHomelessAreResurrected(c, front, entered);
      ResurrectedAppend(c, front, last, TransactionIds(c, entered));
      assert front + [last] == abandoned;
    }
  }

  // ---- The order of candidates ------------------------------------------------------------

  // What wants into the pool after the tip moved: first the homeless of the abandoned branch, oldest
  // block first, then the pool as it was.
  ghost function Claims(c: Crypto, blocks: Tree, left: string, reached: string, ancestor: string, pool: seq<Transaction>): seq<Transaction>
    requires Rooted(blocks) && left in blocks && reached in blocks && IsLowestCommonAncestor(blocks, ancestor, left, reached)
  {
    AncestorsAreLower(blocks, ancestor, left);
    AncestorsAreLower(blocks, ancestor, reached);
    Homeless(c, AboveOnBranch(blocks, left, ancestor), AboveOnBranch(blocks, reached, ancestor)) + pool
  }

  lemma LowestIsUnique(blocks: Tree, a: string, b: string, left: string, right: string)
    requires Rooted(blocks) && left in blocks && right in blocks
    requires IsLowestCommonAncestor(blocks, a, left, right) && IsLowestCommonAncestor(blocks, b, left, right)
    ensures a == b
  {
    AncestorsAreLower(blocks, a, b);
    AncestorsAreLower(blocks, b, a);
  }

  // The candidates are the claims, in that order, and what excludes them is the new branch.
  lemma CandidatesAreClaims(c: Crypto, blocks: Tree, left: string, reached: string, ancestor: string, pool: seq<Transaction>)
    requires Rooted(blocks) && SingleRoot(blocks) && left in blocks && reached in blocks
    requires IsLowestCommonAncestor(blocks, ancestor, left, reached)
    ensures Candidates(c, blocks, Some(left), Some(reached), pool) == Claims(c, blocks, left, reached, ancestor, pool)
    ensures Height(blocks, ancestor) <= Height(blocks, reached)
    ensures BranchIds(c, blocks, Some(left), Some(reached)) == TransactionIds(c, AboveOnBranch(blocks, reached, ancestor))
  {
    hide Rooted, SingleRoot, AboveOnBranch, TransactionIds, TransactionsAbove;
    MeetingIsLowest(blocks, left, reached);
    LowestIsUnique(blocks, Meeting(blocks, left, reached).value, ancestor, left, reached);
    CollectedFromTheBranch(blocks, left, ancestor);
    CollectedFromTheBranch(blocks, reached, ancestor);
    TheHomelessAreResurrected(c, AboveOnBranch(blocks, left, ancestor), AboveOnBranch(blocks, reached, ancestor));
  }

  // No two of the transactions share an id, and none shares one with a transaction that entered.
  ghost predicate AllNew(c: Crypto, txs: seq<Transaction>, entered: seq<Transaction>) {
    && DistinctIds(c, txs)
    && (forall i :: 0 <= i < |txs| ==> !SharesId(c, txs[i], entered))
  }

  lemma NewTouchNoIds(c: Crypto, txs: seq<Transaction>, entered: seq<Transaction>)
    requires AllNew(c, txs, entered)
    ensures TransactionIds(c, txs) !! TransactionIds(c, entered)
  {
    hide IdOf;
  }

  // Whatever run of claims applies in order on the new tip, the pool starts with it, and when all
  // of them do, the pool is just that.
  ghost predicate RunsAreKept(c: Crypto, tip: State, blocks: Tree, left: string, reached: string, ancestor: string,
                              pool: seq<Transaction>, kept: seq<Transaction>)
    requires Rooted(blocks) && left in blocks && reached in blocks && IsLowestCommonAncestor(blocks, ancestor, left, reached)
  {
    AncestorsAreLower(blocks, ancestor, reached);
    var claims, entered := Claims(c, blocks, left, reached, ancestor, pool), AboveOnBranch(blocks, reached, ancestor);
    forall n :: 0 <= n <= |claims| && OnTip(c, tip, claims[..n]).Success? && AllNew(c, claims[..n], entered) ==>
      claims[..n] <= kept && (n == |claims| ==> kept == claims)
  }

  // What was abandoned comes back in its old order, in front of what was pending.
  ghost predicate ClaimsComeFirst(c: Crypto, tip: State, blocks: Tree, left: Option<string>, reached: Option<string>,
                                  pool: seq<Transaction>, kept: seq<Transaction>)
    requires Rooted(blocks)
  {
    left.Some? && reached.Some? && left.value in blocks && reached.value in blocks ==>
      forall ancestor :: IsLowestCommonAncestor(blocks, ancestor, left.value, reached.value) ==>
        RunsAreKept(c, tip, blocks, left.value, reached.value, ancestor, pool, kept)
  }

  lemma RunsOfClaimsAreKept(c: Crypto, tip: State, blocks: Tree, left: string, reached: string, ancestor: string, pool: seq<Transaction>)
    requires Rooted(blocks) && SingleRoot(blocks) && left in blocks && reached in blocks
    requires IsLowestCommonAncestor(blocks, ancestor, left, reached)
    ensures RunsAreKept(c, tip, blocks, left, reached, ancestor, pool, Reconciled(c, tip, blocks, Some(left), Some(reached), pool))
  {
    hide Rooted, SingleRoot, AboveOnBranch, TransactionIds, Claims, Candidates, BranchIds, OnTip, AllNew, Retained, IsLowestCommonAncestor;
    AncestorIsNoHigher(blocks, ancestor, left, reached);
    CandidatesAreClaims(c, blocks, left, reached, ancestor, pool);
    var claims, entered := Claims(c, blocks, left, reached, ancestor, pool), AboveOnBranch(blocks, reached, ancestor);
    forall n | 0 <= n <= |claims| && OnTip(c, tip, claims[..n]).Success? && AllNew(c, claims[..n], entered)
      ensures claims[..n] <= Retained(c, tip, claims, TransactionIds(c, entered))
      ensures n == |claims| ==> Retained(c, tip, claims, TransactionIds(c, entered)) == claims
    {
      assert n == |claims| ==> claims[..n] == claims;
      NewTouchNoIds(c, claims[..n], entered);
      KeptWhenNew(c, tip, claims[..n], entered);
      RetainedGrows(c, tip, claims, TransactionIds(c, entered), n);
    }
  }

  lemma AncestorIsNoHigher(blocks: Tree, ancestor: string, left: string, reached: string)
    requires Rooted(blocks) && left in blocks && reached in blocks && IsLowestCommonAncestor(blocks, ancestor, left, reached)
    ensures ancestor in blocks && Height(blocks, ancestor) <= Height(blocks, reached)
  {
    AncestorsAreLower(blocks, ancestor, reached);
  }

  lemma KeptWhenNew(c: Crypto, tip: State, txs: seq<Transaction>, entered: seq<Transaction>)
    requires OnTip(c, tip, txs).Success? && AllNew(c, txs, entered)
    ensures Retained(c, tip, txs, TransactionIds(c, entered)) == txs
  {
    hide OnTip, TransactionIds, Retained;
    NewTouchNoIds(c, txs, entered);
    IntactPoolIsKept(c, tip, txs, TransactionIds(c, entered));
  }

  lemma ReorgKeepsOrder(c: Crypto, tip: State, blocks: Tree, left: Option<string>, reached: Option<string>, pool: seq<Transaction>)
    requires Rooted(blocks) && SingleRoot(blocks)
    requires (left.Some? ==> left.value in blocks) && (reached.Some? ==> reached.value in blocks)
    ensures ClaimsComeFirst(c, tip, blocks, left, reached, pool, Reconciled(c, tip, blocks, left, reached, pool))
  {
    hide Rooted, SingleRoot, IsLowestCommonAncestor, Reconciled, RunsAreKept;
    if left.Some? && reached.Some? {
      forall ancestor | IsLowestCommonAncestor(blocks, ancestor, left.value, reached.value)
        ensures RunsAreKept(c, tip, blocks, left.value, reached.value, ancestor, pool, Reconciled(c, tip, blocks, left, reached, pool))
      {
        RunsOfClaimsAreKept(c, tip, blocks, left.value, reached.value, ancestor, pool);
      }
    }
  }

  // ---- Chains -----------------------------------------------------------------------------

  lemma {:induction false} FlattenSuffix(branch: seq<Block>, k: nat, u: Transaction)
    requires k <= |branch| && u in Flatten(branch[k..])
    ensures u in Flatten(branch)
  {
    if k < |branch| {
      assert branch[k..][..|branch| - k - 1] == branch[..|branch| - 1][k..];
      if u !in branch[|branch| - 1].transactions {
        FlattenSuffix(branch[..|branch| - 1], k, u);
      }
    }
  }

  // A user transaction of a branch carries a nonce its sender has used up.
  lemma NoncesAreUsedUp(r: Rules, branch: seq<Block>, u: Transaction)
    requires Replay(r, branch).Success? && u in Flatten(branch) && !IsReward(u)
    ensures u.nonce < NonceOf(Replay(r, branch).value, u.sender)
  {
    hide Replay, Flatten, CountOf;
    NoncesCountTransactions(r, branch);
    var txs := Flatten(branch);
    var j :| 0 <= j < |txs| && txs[j] == u;
    CountGrows(txs, j, |txs|, u.sender);
    assert txs[..|txs|] == txs;
  }

  // Transactions that apply in order after a branch are all new to it.
  lemma ReplayableIsNew(r: Rules, branch: seq<Block>, k: nat, txs: seq<Transaction>)
    requires Replay(r, branch).Success? && k <= |branch| && NoIdClashes(r.crypto)
    requires Replayable(r.crypto, Replay(r, branch).value, txs)
    ensures AllNew(r.crypto, txs, Flatten(branch[k..]))
  {
    hide Replay, Flatten, CountOf, ApplyAll;
    var c, tip, entered := r.crypto, Replay(r, branch).value, Flatten(branch[k..]);
    SequenceCountsNonces(c, tip, txs, tip.height + 1);
    forall i, j | 0 <= i < j < |txs|
      ensures IdOf(c, txs[i]) != IdOf(c, txs[j])
    {
      CountGrows(txs, i, j, txs[i].sender);
    }
    forall i | 0 <= i < |txs|
      ensures !SharesId(c, txs[i], entered)
    {
      if SharesId(c, txs[i], entered) {
        var j :| 0 <= j < |entered| && IdOf(c, entered[j]) == IdOf(c, txs[i]);
        FlattenSuffix(branch, k, entered[j]);
        NoncesAreUsedUp(r, branch, entered[j]);
      }
    }
  }

  // On a chain whose ids tell nonces apart: when the homeless of the abandoned branch, oldest block
  // first, and behind them the first pending transactions apply in order on the new tip, the new
  // pool starts with exactly these, and when they are all there are, it is exactly these. A pending
  // transaction that has to wait for abandoned ones of its sender is therefore kept behind them.
  lemma AbandonedThenPending(r: Rules, blocks: Tree, states: map<string, State>, left: string, reached: string, ancestor: string,
                             pool: seq<Transaction>, n: nat)
    requires Cached(r, blocks, states) && Rooted(blocks) && left in blocks && reached in blocks && reached in states
    requires IsLowestCommonAncestor(blocks, ancestor, left, reached) && NoIdClashes(r.crypto) && n <= |pool|
    requires Replayable(r.crypto, states[reached], Claims(r.crypto, blocks, left, reached, ancestor, pool[..n]))
    ensures var kept := Reconciled(r.crypto, states[reached], blocks, Some(left), Some(reached), pool);
            && Claims(r.crypto, blocks, left, reached, ancestor, pool[..n]) <= kept
            && (n == |pool| ==> kept == Claims(r.crypto, blocks, left, reached, ancestor, pool))
  {
    hide Cached, Rooted, SingleRoot, IsLowestCommonAncestor, OnTip, Replay, Branch, Homeless, Reconciled, AllNew, IdOf, NoRewards;
    var c := r.crypto;
    CachedIsRooted(r, blocks, states);
    CacheIsReplay(r, blocks, states, reached);
    AncestorIsNoHigher(blocks, ancestor, left, reached);
    var claims, some := Claims(c, blocks, left, reached, ancestor, pool), Claims(c, blocks, left, reached, ancestor, pool[..n]);
    assert claims[..|some|] == some;
    assert n == |pool| ==> pool[..n] == pool;
    ReplayableIsNew(r, Branch(blocks, reached), Height(blocks, ancestor) + 1, some);
    RunsOfClaimsAreKept(c, states[reached], blocks, left, reached, ancestor, pool);
  }

  // ---- Into a block -----------------------------------------------------------------------

  // Among transactions of equal fee, both have the same ones in the same order.
  ghost predicate SameByFee(a: seq<Transaction>, b: seq<Transaction>) {
    forall fee :: WithFee(a, fee) == WithFee(b, fee)
  }

  // The pool with its best fees first, equal fees in the order in which they came.
  ghost predicate BestFirst(order: seq<Transaction>, pool: seq<Transaction>) {
    && (forall i, j :: 0 <= i < j < |order| ==> order[i].fee >= order[j].fee)
    && SameByFee(order, pool)
  }

  // The last of an order of falling fees has the least fee.
  lemma {:induction false} LastIsLeast(order: seq<Transaction>, fee: real)
    requires Descending(order) && WithFee(order, fee) != []
    ensures order != [] && order[|order| - 1].fee <= fee
  {
    if order[|order| - 1].fee != fee {
      LastIsLeast(order[..|order| - 1], fee);
    }
  }

  lemma LastHasItsFee(txs: seq<Transaction>)
    requires txs != []
    ensures WithFee(txs, txs[|txs| - 1].fee) == WithFee(txs[..|txs| - 1], txs[|txs| - 1].fee) + [txs[|txs| - 1]]
    ensures forall fee :: fee != txs[|txs| - 1].fee ==> WithFee(txs, fee) == WithFee(txs[..|txs| - 1], fee)
  {
  }

  lemma SameEnd(a: seq<Transaction>, x: Transaction, b: seq<Transaction>, y: Transaction)
    requires a + [x] == b + [y]
    ensures a == b && x == y
  {
    assert (a + [x])[..|a|] == a && (b + [y])[..|b|] == b;
    assert (a + [x])[|a|] == x && (b + [y])[|b|] == y;
  }

  // There is only one such order.
  lemma {:induction false} OneOrder(a: seq<Transaction>, b: seq<Transaction>)
    requires Descending(a) && Descending(b) && SameByFee(a, b)
    ensures a == b
  {
    hide WithFee, Descending;
    if a != [] {
      LastHasItsFee(a);
      LastIsLeast(b, a[|a| - 1].fee);
    }
    if b != [] {
      LastHasItsFee(b);
      LastIsLeast(a, b[|b| - 1].fee);
      SameLast(a, b);
      assert a == a[..|a| - 1] + [a[|a| - 1]] && b == b[..|b| - 1] + [b[|b| - 1]];
      OneOrder(a[..|a| - 1], b[..|b| - 1]);
    }
  }

  lemma SameLast(a: seq<Transaction>, b: seq<Transaction>)
    requires a != [] && b != [] && a[|a| - 1].fee == b[|b| - 1].fee && SameByFee(a, b)
    requires Descending(a) && Descending(b)
    ensures a[|a| - 1] == b[|b| - 1] && Descending(a[..|a| - 1]) && Descending(b[..|b| - 1])
    ensures SameByFee(a[..|a| - 1], b[..|b| - 1])
  {
    hide WithFee;
    var f, front, front' := a[|a| - 1].fee, a[..|a| - 1], b[..|b| - 1];
    LastHasItsFee(a);
    LastHasItsFee(b);
    SameEnd(WithFee(front, f), a[|a| - 1], WithFee(front', f), b[|b| - 1]);
    forall fee
      ensures WithFee(front, fee) == WithFee(front', fee)
    {
      assert WithFee(a, fee) == WithFee(b, fee);
    }
  }

  lemma BestFirstIsSorted(order: seq<Transaction>, pool: seq<Transaction>)
    requires BestFirst(order, pool)
    ensures SortedByFee(pool) == order
  {
    hide WithFee, SortedByFee;
    SortingIsStable(pool, 0.0);
    forall fee
      ensures WithFee(SortedByFee(pool), fee) == WithFee(order, fee)
    {
      SortingIsStable(pool, fee);
    }
    OneOrder(SortedByFee(pool), order);
  }

  lemma {:induction false} PrefixApplies(c: Crypto, s: State, txs: seq<Transaction>, n: nat, height: int)
    requires n <= |txs| && ApplyAll(c, s, txs, height).Success?
    ensures ApplyAll(c, s, txs[..n], height).Success?
    decreases |txs|
  {
    if n < |txs| {
      PrefixApplies(c, s, txs[..|txs| - 1], n, height);
      assert txs[..|txs| - 1][..n] == txs[..n];
    } else {
      assert txs[..n] == txs;
    }
  }

  lemma {:induction false} PassTakesRun(c: Crypto, tip: State, order: seq<Transaction>, n: nat)
    requires n <= |order| && n <= 99 && OnTip(c, tip, order[..n]).Success?
    ensures SelectionPass(c, tip, order[..n], []) == (order[..n], [])
  {
    hide ApplyAll, SelectionPass;
    if n == 0 {
      NothingTried(c, tip, order, []);
    } else {
      assert order[..n][..n - 1] == order[..n - 1];
      PrefixApplies(c, tip, order[..n], n - 1, tip.height + 1);
      PassTakesRun(c, tip, order, n - 1);
      PassNext(c, tip, order, [], n - 1);
      assert order[..n - 1] + [order[n - 1]] == order[..n];
    }
  }

  // A pass, and passes after it, only add to what was selected.
  lemma {:induction false} PassAdds(c: Crypto, tip: State, remaining: seq<Transaction>, selected: seq<Transaction>, n: nat)
    requires n <= |remaining|
    ensures SelectionPass(c, tip, remaining[..n], selected).0 <= SelectionPass(c, tip, remaining, selected).0
    decreases |remaining|
  {
    hide ApplyAll;
    if n < |remaining| {
      assert remaining[..|remaining| - 1][..n] == remaining[..n];
      PassAdds(c, tip, remaining[..|remaining| - 1], selected, n);
    } else {
      assert remaining[..n] == remaining;
    }
  }

  lemma {:induction false} SelectionAdds(c: Crypto, tip: State, remaining: seq<Transaction>, selected: seq<Transaction>)
    ensures selected <= Selection(c, tip, remaining, selected).0
    ensures remaining != [] && |selected| < 99 ==> SelectionPass(c, tip, remaining, selected).0 <= Selection(c, tip, remaining, selected).0
    decreases |remaining|
  {
    hide ApplyAll, SelectionPass;
    if remaining != [] && |selected| < 99 {
      NothingTried(c, tip, remaining, selected);
      PassAdds(c, tip, remaining, selected, 0);
      var (chosen, waiting) := SelectionPass(c, tip, remaining, selected);
      if |waiting| < |remaining| {
        SelectionAdds(c, tip, waiting, chosen);
      }
    }
  }

  // Whatever run of at most 99 applies in order, best fees first, the block starts with it; so a
  // pool that applies best fees first and fits is taken whole, in that order.
  lemma BestFeesGoFirst(c: Crypto, tip: State, order: seq<Transaction>, pool: seq<Transaction>, n: nat)
    requires BestFirst(order, pool) && n <= |order| && n <= 99 && OnTip(c, tip, order[..n]).Success?
    ensures order[..n] <= Selected(c, tip, pool)
    ensures n == |order| || n == 99 ==> Selected(c, tip, pool) == order[..n]
  {
    hide ApplyAll, SelectionPass, Selection, SortedByFee, BestFirst, WithFee;
    BestFirstIsSorted(order, pool);
    PassTakesRun(c, tip, order, n);
    PassAdds(c, tip, order, [], n);
    SelectionAdds(c, tip, order, []);
    if order == [] {
      EmptySelection(c, tip, []);
    } else if n == |order| || n == 99 {
      FullSelection(c, tip, order, n);
    }
  }

  lemma EmptySelection(c: Crypto, tip: State, selected: seq<Transaction>)
    ensures Selection(c, tip, [], selected) == (selected, [])
  {
  }

  lemma FullSelection(c: Crypto, tip: State, order: seq<Transaction>, n: nat)
    requires n <= |order| && n <= 99 && order != [] && (n == |order| || n == 99)
    requires OnTip(c, tip, order[..n]).Success? && order[..n] <= Selection(c, tip, order, []).0
    ensures Selection(c, tip, order, []).0 == order[..n]
  {
    hide ApplyAll, SelectionPass, Selection;
    NothingOnTip(c, tip);
    SelectionIsMaximal(c, tip, order, []);
    var (chosen, left) := Selection(c, tip, order, []);
    assert |multiset(chosen) + multiset(left)| == |order|;
  }

  // The first transaction of a block has the best fee of all that apply by themselves.
  lemma {:induction false} FirstOfPass(c: Crypto, tip: State, remaining: seq<Transaction>, tx: Transaction)
    requires Descending(remaining) && tx in remaining && OnTip(c, tip, [tx]).Success?
    ensures var chosen := SelectionPass(c, tip, remaining, []).0; chosen != [] && chosen[0].fee >= tx.fee
  {
    hide ApplyAll;
    var front, last := remaining[..|remaining| - 1], remaining[|remaining| - 1];
    if tx in front {
      FirstOfPass(c, tip, front, tx);
    } else {
      PassIsPart(c, tip, front, []);
      assert [] + [tx] == [tx];
      var chosen := SelectionPass(c, tip, front, []).0;
      if chosen != [] {
        assert chosen[0] in chosen;
        var i :| 0 <= i < |front| && front[i] == chosen[0];
        assert remaining[i].fee >= last.fee;
      }
    }
  }

  lemma {:induction false} PassIsPart(c: Crypto, tip: State, remaining: seq<Transaction>, selected: seq<Transaction>)
    ensures forall t :: t in SelectionPass(c, tip, remaining, selected).0 ==> t in selected || t in remaining
  {
    hide ApplyAll;
    if remaining != [] {
      PassIsPart(c, tip, remaining[..|remaining| - 1], selected);
    }
  }

  lemma BestFeeIsFirst(c: Crypto, tip: State, pool: seq<Transaction>, tx: Transaction)
    requires tx in pool && OnTip(c, tip, [tx]).Success?
    ensures Selected(c, tip, pool) != [] && Selected(c, tip, pool)[0].fee >= tx.fee
  {
    hide ApplyAll, SelectionPass, Selection, SortedByFee;
    SortingIsStable(pool, 0.0);
    var order := SortedByFee(pool);
    assert tx in multiset(order);
    FirstOfPass(c, tip, order, tx);
    SelectionAdds(c, tip, order, []);
  }
}

/** Pending transactions, as values: which of them survive a change of tip, and which of them a
    miner puts into a block. */
module Mempool {
  import opened Base
  import opened Ledger
  import opened LedgerTheorems
  import opened Blocks
  import opened BlockTheorems
  import opened BlockTree

  // Applying pending transactions in order on top of a tip state, at the next height.
  function OnTip(c: Crypto, tip: State, txs: seq<Transaction>): Outcome {
    ApplyAll(c, tip, txs, tip.height + 1)
  }

  ghost predicate NoRewards(txs: seq<Transaction>) {
    forall i :: 0 <= i < |txs| ==> !IsReward(txs[i])
  }

  // A pool in which every transaction applies after those before it, and none is a reward.
  ghost predicate Replayable(c: Crypto, tip: State, pending: seq<Transaction>) {
    OnTip(c, tip, pending).Success? && NoRewards(pending)
  }

  function TransactionIds(c: Crypto, txs: seq<Transaction>): set<string> {
    set i | 0 <= i < |txs| :: IdOf(c, txs[i])
  }

  // ---- Reconciling after a change of tip --------------------------------------------------

  // Walking through the candidates in order and keeping those that are not on the new branch,
  // not kept already, and apply.
  function Retained(c: Crypto, tip: State, candidates: seq<Transaction>, onBranch: set<string>): seq<Transaction> {
    if candidates == [] then [] else
    var kept := Retained(c, tip, candidates[..|candidates| - 1], onBranch);
    var tx := candidates[|candidates| - 1];
    if IdOf(c, tx) in TransactionIds(c, kept) || IdOf(c, tx) in onBranch then kept
    else if OnTip(c, tip, kept + [tx]).Success? then kept + [tx]
    else kept
  }

  lemma RetainedNext(c: Crypto, tip: State, candidates: seq<Transaction>, onBranch: set<string>, i: nat)
    requires i < |candidates|
    ensures var kept := Retained(c, tip, candidates[..i], onBranch);
            var id := IdOf(c, candidates[i]);
            Retained(c, tip, candidates[..i + 1], onBranch) ==
              if id !in TransactionIds(c, kept) && id !in onBranch && OnTip(c, tip, kept + [candidates[i]]).Success?
              then kept + [candidates[i]] else kept
  {
    hide ApplyAll, TransactionIds;
    assert candidates[..i + 1][..i] == candidates[..i];
  }

  lemma {:induction false} RetainedReplays(c: Crypto, tip: State, candidates: seq<Transaction>, onBranch: set<string>)
    requires NoRewards(candidates)
    ensures var kept := Retained(c, tip, candidates, onBranch); Replayable(c, tip, kept) && NoRewards(kept)
    ensures TransactionIds(c, Retained(c, tip, candidates, onBranch)) !! onBranch
  {
    hide Apply;
    if candidates != [] {
      RetainedReplays(c, tip, candidates[..|candidates| - 1], onBranch);
    }
  }

  ghost predicate DistinctIds(c: Crypto, txs: seq<Transaction>) {
    forall i, j :: 0 <= i < j < |txs| ==> IdOf(c, txs[i]) != IdOf(c, txs[j])
  }

  // No id is kept twice, whatever the hash.
  lemma {:induction false} RetainedOnce(c: Crypto, tip: State, candidates: seq<Transaction>, onBranch: set<string>)
    ensures DistinctIds(c, Retained(c, tip, candidates, onBranch))
  {
    hide OnTip, IdOf;
    if candidates != [] {
      var front, tx := candidates[..|candidates| - 1], candidates[|candidates| - 1];
      RetainedOnce(c, tip, front, onBranch);
      var before := Retained(c, tip, front, onBranch);
      if IdOf(c, tx) !in TransactionIds(c, before) {
        OneMoreId(c, before, tx);
      }
    }
  }

  lemma OneMoreId(c: Crypto, txs: seq<Transaction>, tx: Transaction)
    requires DistinctIds(c, txs) && IdOf(c, tx) !in TransactionIds(c, txs)
    ensures DistinctIds(c, txs + [tx])
  {
    hide IdOf;
    var more := txs + [tx];
    forall i, j | 0 <= i < j < |more|
      ensures IdOf(c, more[i]) != IdOf(c, more[j])
    {
      assert more[i] == txs[i] && IdOf(c, txs[i]) in TransactionIds(c, txs);
      assert more[j] == if j < |txs| then txs[j] else tx;
    }
  }

  lemma {:induction false} RetainedGrows(c: Crypto, tip: State, candidates: seq<Transaction>, onBranch: set<string>, n: nat)
    requires n <= |candidates|
    ensures Retained(c, tip, candidates[..n], onBranch) <= Retained(c, tip, candidates, onBranch)
    decreases |candidates|
  {
    hide ApplyAll, TransactionIds;
    if n == |candidates| {
      assert candidates[..n] == candidates;
    } else {
      var front := candidates[..|candidates| - 1];
      assert candidates[..n] == front[..n];
      RetainedGrows(c, tip, front, onBranch, n);
    }
  }

  // What became of the i-th candidate: it is in the pool at its turn, right after what was kept of
  // the candidates before it; or it is on the new branch; or it repeats one of those kept before
  // it; or it does not apply after them.
  ghost predicate Accounted(c: Crypto, tip: State, candidates: seq<Transaction>, onBranch: set<string>, kept: seq<Transaction>, i: nat)
    requires i < |candidates|
  {
    var before := Retained(c, tip, candidates[..i], onBranch);
    && before <= kept
    && (|| (|before| < |kept| && kept[|before|] == candidates[i])
        || IdOf(c, candidates[i]) in onBranch
        || IdOf(c, candidates[i]) in TransactionIds(c, before)
        || OnTip(c, tip, before + [candidates[i]]).Failure?)
  }

  lemma EveryCandidateIsAccountedFor(c: Crypto, tip: State, candidates: seq<Transaction>, onBranch: set<string>, i: nat)
    requires i < |candidates|
    ensures Accounted(c, tip, candidates, onBranch, Retained(c, tip, candidates, onBranch), i)
  {
    hide ApplyAll, TransactionIds;
    RetainedGrows(c, tip, candidates, onBranch, i);
    RetainedGrows(c, tip, candidates, onBranch, i + 1);
    assert candidates[..i + 1][..i] == candidates[..i];
  }

  // The abandoned branch's transactions, rewards and repeats of the new branch aside.
  function Resurrected(c: Crypto, txs: seq<Transaction>, currentIds: set<string>): seq<Transaction> {
    if txs == [] then []
    else
      var rest := Resurrected(c, txs[1..], currentIds);
      if !IsReward(txs[0]) && IdOf(c, txs[0]) !in currentIds then [txs[0]] + rest else rest
  }

  lemma {:induction false} NoRewardsAmong(c: Crypto, txs: seq<Transaction>, ids: set<string>, pending: seq<Transaction>)
    requires NoRewards(pending)
    ensures NoRewards(Resurrected(c, txs, ids) + pending)
  {
    if txs != [] {
      NoRewardsAmong(c, txs[1..], ids, pending);
      assert Resurrected(c, txs, ids) + pending == (if !IsReward(txs[0]) && IdOf(c, txs[0]) !in ids then [txs[0]] else [])
                                                   + (Resurrected(c, txs[1..], ids) + pending);
    }
  }

  // The candidates of a reconciliation: the abandoned branch's transactions, then the pool.
  ghost function Candidates(c: Crypto, blocks: Tree, previousHead: Option<string>, head: Option<string>, pending: seq<Transaction>): seq<Transaction>
    requires Rooted(blocks)
    requires (previousHead.Some? ==> previousHead.value in blocks) && (head.Some? ==> head.value in blocks)
  {
    var ancestor := CommonAncestor(blocks, previousHead, head);
    Resurrected(c, TransactionsAbove(blocks, previousHead, ancestor), BranchIds(c, blocks, previousHead, head)) + pending
  }

  // The ids of the transactions on the new branch above the common ancestor.
  ghost function BranchIds(c: Crypto, blocks: Tree, previousHead: Option<string>, head: Option<string>): set<string>
    requires Rooted(blocks)
    requires (previousHead.Some? ==> previousHead.value in blocks) && (head.Some? ==> head.value in blocks)
  {
    TransactionIds(c, TransactionsAbove(blocks, head, CommonAncestor(blocks, previousHead, head)))
  }

  // The pool after a change of tip.
  ghost function Reconciled(c: Crypto, tipState: State, blocks: Tree, previousHead: Option<string>, head: Option<string>,
                            pending: seq<Transaction>): seq<Transaction>
    requires Rooted(blocks)
    requires (previousHead.Some? ==> previousHead.value in blocks) && (head.Some? ==> head.value in blocks)
  {
    Retained(c, tipState, Candidates(c, blocks, previousHead, head, pending), BranchIds(c, blocks, previousHead, head))
  }

  // A pool that still applies to its tip is kept as it is, when nothing of it is on the branch
  // and no transaction is in it twice.
  lemma {:induction false} IntactPoolIsKept(c: Crypto, tip: State, pending: seq<Transaction>, onBranch: set<string>)
    requires OnTip(c, tip, pending).Success? && TransactionIds(c, pending) !! onBranch
    requires DistinctIds(c, pending)
    ensures Retained(c, tip, pending, onBranch) == pending
  {
    hide Apply, IdOf, TransactionIds;
    if pending != [] {
      var front, last := pending[..|pending| - 1], pending[|pending| - 1];
      assert front + [last] == pending;
      IdsOfFront(c, pending);
      IntactPoolIsKept(c, tip, front, onBranch);
    }
  }

  lemma IdsOfFront(c: Crypto, txs: seq<Transaction>)
    requires txs != []
    ensures var front, last := txs[..|txs| - 1], txs[|txs| - 1];
            && TransactionIds(c, txs) == TransactionIds(c, front) + {IdOf(c, last)}
            && ((forall i :: 0 <= i < |front| ==> IdOf(c, front[i]) != IdOf(c, last)) ==> IdOf(c, last) !in TransactionIds(c, front))
  {
    hide IdOf;
    var front, last := txs[..|txs| - 1], txs[|txs| - 1];
    forall id | id in TransactionIds(c, txs)
      ensures id in TransactionIds(c, front) + {IdOf(c, last)}
    {
      var i :| 0 <= i < |txs| && IdOf(c, txs[i]) == id;
      assert i < |front| ==> front[i] == txs[i];
    }
    forall id | id in TransactionIds(c, front) + {IdOf(c, last)}
      ensures id in TransactionIds(c, txs)
    {
      if id != IdOf(c, last) {
        var i :| 0 <= i < |front| && IdOf(c, front[i]) == id;
        assert front[i] == txs[i];
      }
    }
  }

  lemma {:induction false} Resurrects(c: Crypto, txs: seq<Transaction>, currentIds: set<string>, tx: Transaction)
    requires tx in txs && !IsReward(tx) && IdOf(c, tx) !in currentIds
    ensures tx in Resurrected(c, txs, currentIds)
  {
    if txs[0] != tx {
      Resurrects(c, txs[1..], currentIds, tx);
    }
  }

  // Every pending transaction is a candidate, every user transaction of an abandoned block is one
  // or is on the new branch, and each candidate is accounted for at its own turn.
  ghost predicate NothingLost(c: Crypto, tip: State, blocks: Tree, previousHead: Option<string>, head: Option<string>,
                              pending: seq<Transaction>, kept: seq<Transaction>)
    requires Rooted(blocks)
    requires (previousHead.Some? ==> previousHead.value in blocks) && (head.Some? ==> head.value in blocks)
  {
    var candidates, onBranch := Candidates(c, blocks, previousHead, head, pending), BranchIds(c, blocks, previousHead, head);
    var abandoned := TransactionsAbove(blocks, previousHead, CommonAncestor(blocks, previousHead, head));
    && (forall tx :: tx in pending ==> tx in candidates)
    && (forall tx :: tx in abandoned && !IsReward(tx) ==> tx in candidates || IdOf(c, tx) in onBranch)
    && (forall i :: 0 <= i < |candidates| ==> Accounted(c, tip, candidates, onBranch, kept, i))
  }

  lemma NothingIsLost(c: Crypto, tip: State, blocks: Tree, previousHead: Option<string>, head: Option<string>, pending: seq<Transaction>)
    requires Rooted(blocks)
    requires (previousHead.Some? ==> previousHead.value in blocks) && (head.Some? ==> head.value in blocks)
    ensures NothingLost(c, tip, blocks, previousHead, head, pending, Reconciled(c, tip, blocks, previousHead, head, pending))
    ensures SingleRoot(blocks) && previousHead.Some? && head.Some? ==>
              var ancestor := CommonAncestor(blocks, previousHead, head);
              ancestor.Some? && IsLowestCommonAncestor(blocks, ancestor.value, previousHead.value, head.value)
  {
    hide OnTip, TransactionIds, Rooted, SingleRoot, IsLowestCommonAncestor, Retained;
    var candidates, onBranch := Candidates(c, blocks, previousHead, head, pending), BranchIds(c, blocks, previousHead, head);
    var abandoned := TransactionsAbove(blocks, previousHead, CommonAncestor(blocks, previousHead, head));
    forall tx | tx in abandoned && !IsReward(tx) && IdOf(c, tx) !in onBranch
      ensures tx in candidates
    {
      Resurrects(c, abandoned, onBranch, tx);
    }
    forall i | 0 <= i < |candidates|
      ensures Accounted(c, tip, candidates, onBranch, Retained(c, tip, candidates, onBranch), i)
    {
      EveryCandidateIsAccountedFor(c, tip, candidates, onBranch, i);
    }
    if SingleRoot(blocks) && previousHead.Some? && head.Some? {
      MeetingIsLowest(blocks, previousHead.value, head.value);
    }
  }

  // Transactions with the same id have the same sender and nonce.
  ghost predicate NoIdClashes(c: Crypto) {
    forall t, u :: IdOf(c, t) == IdOf(c, u) ==> t.sender == u.sender && t.nonce == u.nonce
  }

  // A hash that tells words apart tells nonces apart, also in the legacy version.
  lemma DistinctWordsDoNotClash(c: Crypto)
    requires forall u, v :: c.hashTransaction(u) == c.hashTransaction(v) ==> u == v
    ensures NoIdClashes(c)
  {
    forall t, u | IdOf(c, t) == IdOf(c, u)
      ensures t.sender == u.sender && t.nonce == u.nonce
    {
      assert WordsOf(t) == WordsOf(u);
    }
  }

  // A pool that applies in order holds no transaction twice, so reconciling it with the tip it
  // applies to keeps it as it is.
  lemma PoolSettles(c: Crypto, tip: State, pending: seq<Transaction>)
    requires Replayable(c, tip, pending) && NoIdClashes(c)
    ensures Retained(c, tip, pending, {}) == pending
  {
    hide Retained, ApplyAll;
    SequenceCountsNonces(c, tip, pending, tip.height + 1);
    forall i, j | 0 <= i < j < |pending|
      ensures IdOf(c, pending[i]) != IdOf(c, pending[j])
    {
      CountGrows(pending, i, j, pending[i].sender);
    }
    IntactPoolIsKept(c, tip, pending, {});
  }

  // ---- Ordering by fee --------------------------------------------------------------------

  // Highest fee first; among equal fees the earlier transaction stays first.
  function InsertByFee(tx: Transaction, sorted: seq<Transaction>): seq<Transaction> {
    if sorted == [] then [tx]
    else if sorted[|sorted| - 1].fee >= tx.fee then sorted + [tx]
    else InsertByFee(tx, sorted[..|sorted| - 1]) + [sorted[|sorted| - 1]]
  }

  function SortedByFee(txs: seq<Transaction>): seq<Transaction> {
    if txs == [] then [] else InsertByFee(txs[|txs| - 1], SortedByFee(txs[..|txs| - 1]))
  }

  ghost predicate Descending(txs: seq<Transaction>) {
    forall i, j :: 0 <= i < j < |txs| ==> txs[i].fee >= txs[j].fee
  }

  function WithFee(txs: seq<Transaction>, fee: real): seq<Transaction> {
    if txs == [] then [] else
    WithFee(txs[..|txs| - 1], fee) + (if txs[|txs| - 1].fee == fee then [txs[|txs| - 1]] else [])
  }

  lemma WithFeeAppend(txs: seq<Transaction>, tx: Transaction, fee: real)
    ensures WithFee(txs + [tx], fee) == WithFee(txs, fee) + (if tx.fee == fee then [tx] else [])
  {
    assert (txs + [tx])[..|txs|] == txs;
  }

  lemma {:induction false} InsertionKeepsOrder(tx: Transaction, sorted: seq<Transaction>)
    requires Descending(sorted)
    ensures var r := InsertByFee(tx, sorted); Descending(r) && forall i :: 0 <= i < |r| ==> r[i] == tx || r[i] in sorted
  {
    if sorted != [] && sorted[|sorted| - 1].fee < tx.fee {
      InsertionKeepsOrder(tx, sorted[..|sorted| - 1]);
    }
  }

  lemma {:induction false} InsertionAddsOne(tx: Transaction, sorted: seq<Transaction>)
    ensures multiset(InsertByFee(tx, sorted)) == multiset(sorted) + multiset{tx}
  {
    if sorted != [] && sorted[|sorted| - 1].fee < tx.fee {
      InsertionAddsOne(tx, sorted[..|sorted| - 1]);
      assert sorted == sorted[..|sorted| - 1] + [sorted[|sorted| - 1]];
    }
  }

  lemma {:induction false} InsertionComesLast(tx: Transaction, sorted: seq<Transaction>, fee: real)
    ensures WithFee(InsertByFee(tx, sorted), fee) == WithFee(sorted, fee) + (if tx.fee == fee then [tx] else [])
  {
    if sorted == [] || sorted[|sorted| - 1].fee >= tx.fee {
      WithFeeAppend(sorted, tx, fee);
      assert sorted == [] ==> sorted + [tx] == [tx];
    } else {
      var front, last := sorted[..|sorted| - 1], sorted[|sorted| - 1];
      InsertionComesLast(tx, front, fee);
      WithFeeAppend(InsertByFee(tx, front), last, fee);
    }
  }

  // Sorting is a stable permutation.
  lemma {:induction false} SortingIsStable(txs: seq<Transaction>, fee: real)
    ensures Descending(SortedByFee(txs)) && multiset(SortedByFee(txs)) == multiset(txs)
    ensures WithFee(SortedByFee(txs), fee) == WithFee(txs, fee)
  {
    hide InsertByFee, Descending;
    if txs == [] {
      EmptyDescends();
    } else {
      var front, last := txs[..|txs| - 1], txs[|txs| - 1];
      SortingIsStable(front, fee);
      InsertionKeepsOrder(last, SortedByFee(front));
      InsertionAddsOne(last, SortedByFee(front));
      InsertionComesLast(last, SortedByFee(front), fee);
      assert txs == front + [last];
    }
  }

  lemma EmptyDescends()
    ensures Descending([])
  {
  }

  // ---- Selecting transactions for a block -------------------------------------------------

  const MAX_SELECTED: nat := MAX_TRANSACTIONS_PER_BLOCK - 1

  // One pass: whoever applies is selected, the others wait for the next pass.
  function SelectionPass(c: Crypto, tip: State, remaining: seq<Transaction>, selected: seq<Transaction>): (seq<Transaction>, seq<Transaction>) {
    if remaining == [] then (selected, []) else
    var tx := remaining[|remaining| - 1];
    var (chosen, waiting) := SelectionPass(c, tip, remaining[..|remaining| - 1], selected);
    if |chosen| < MAX_SELECTED && OnTip(c, tip, chosen + [tx]).Success? then (chosen + [tx], waiting)
    else (chosen, waiting + [tx])
  }

  lemma NothingTried(c: Crypto, tip: State, remaining: seq<Transaction>, selected: seq<Transaction>)
    ensures SelectionPass(c, tip, remaining[..0], selected) == (selected, [])
  {
  }

  lemma PassNext(c: Crypto, tip: State, remaining: seq<Transaction>, selected: seq<Transaction>, i: nat)
    requires i < |remaining|
    ensures var (chosen, waiting) := SelectionPass(c, tip, remaining[..i], selected);
            SelectionPass(c, tip, remaining[..i + 1], selected) ==
              if |chosen| < MAX_SELECTED && OnTip(c, tip, chosen + [remaining[i]]).Success? then (chosen + [remaining[i]], waiting)
              else (chosen, waiting + [remaining[i]])
  {
    hide ApplyAll;
    assert remaining[..i + 1][..i] == remaining[..i];
  }

  lemma {:induction false} PassKeepsAll(c: Crypto, tip: State, remaining: seq<Transaction>, selected: seq<Transaction>)
    requires OnTip(c, tip, selected).Success? && |selected| <= MAX_SELECTED
    ensures var (chosen, waiting) := SelectionPass(c, tip, remaining, selected);
            && OnTip(c, tip, chosen).Success? && |chosen| <= MAX_SELECTED
            && multiset(chosen) + multiset(waiting) == multiset(selected) + multiset(remaining)
  {
    hide ApplyAll;
    if remaining != [] {
      var front, tx := remaining[..|remaining| - 1], remaining[|remaining| - 1];
      PassKeepsAll(c, tip, front, selected);
      assert remaining == front + [tx];
      var (chosen, waiting) := SelectionPass(c, tip, front, selected);
      assert multiset(remaining) == multiset(front) + multiset{tx};
      assert multiset(chosen + [tx]) == multiset(chosen) + multiset{tx};
      assert multiset(waiting + [tx]) == multiset(waiting) + multiset{tx};
      var (chosen', waiting') := SelectionPass(c, tip, remaining, selected);
      assert multiset(chosen') + multiset(waiting') == (multiset(chosen) + multiset(waiting)) + multiset{tx};
    }
  }

  // A pass that selects nobody has tried everybody against the same state.
  lemma {:induction false} IdlePassTriesAll(c: Crypto, tip: State, remaining: seq<Transaction>, selected: seq<Transaction>)
    ensures var (chosen, waiting) := SelectionPass(c, tip, remaining, selected);
            && |waiting| <= |remaining| && |chosen| + |waiting| == |selected| + |remaining|
            && (|waiting| == |remaining| ==>
                  && chosen == selected && waiting == remaining
                  && (|selected| < MAX_SELECTED ==> forall i :: 0 <= i < |remaining| ==> OnTip(c, tip, selected + [remaining[i]]).Failure?))
  {
    hide ApplyAll;
    if remaining != [] {
      IdlePassTriesAll(c, tip, remaining[..|remaining| - 1], selected);
    }
  }

  // Passes are repeated until one selects nobody, or the block is full.
  function Selection(c: Crypto, tip: State, remaining: seq<Transaction>, selected: seq<Transaction>): (seq<Transaction>, seq<Transaction>)
    decreases |remaining|
  {
    if remaining == [] || |selected| >= MAX_SELECTED then (selected, remaining) else
    var (chosen, waiting) := SelectionPass(c, tip, remaining, selected);
    if |waiting| >= |remaining| then (chosen, waiting) else Selection(c, tip, waiting, chosen)
  }

  // The selection applies in order, is made of pending transactions, and cannot be extended:
  // it is full, or nobody left over applies after it.
  lemma {:induction false} SelectionIsMaximal(c: Crypto, tip: State, remaining: seq<Transaction>, selected: seq<Transaction>)
    requires OnTip(c, tip, selected).Success? && |selected| <= MAX_SELECTED
    ensures var (chosen, left) := Selection(c, tip, remaining, selected);
            && OnTip(c, tip, chosen).Success? && |chosen| <= MAX_SELECTED
            && multiset(chosen) + multiset(left) == multiset(selected) + multiset(remaining)
            && (|chosen| == MAX_SELECTED || forall i :: 0 <= i < |left| ==> OnTip(c, tip, chosen + [left[i]]).Failure?)
    decreases |remaining|
  {
    hide ApplyAll;
    if remaining != [] && |selected| < MAX_SELECTED {
      PassKeepsAll(c, tip, remaining, selected);
      IdlePassTriesAll(c, tip, remaining, selected);
      var (chosen, waiting) := SelectionPass(c, tip, remaining, selected);
      if |waiting| < |remaining| {
        SelectionIsMaximal(c, tip, waiting, chosen);
      }
    }
  }

  // What a miner puts into a block.
  function Selected(c: Crypto, tip: State, pending: seq<Transaction>): seq<Transaction> {
    Selection(c, tip, SortedByFee(pending), []).0
  }

  // The selection is a part of the pool that applies in order on the tip, and it is maximal: the
  // block is full, or none of the transactions left in the pool applies after it.
  lemma SelectedIsMaximal(c: Crypto, tip: State, pending: seq<Transaction>)
    requires NoRewards(pending)
    ensures var selected := Selected(c, tip, pending);
            && Replayable(c, tip, selected) && |selected| <= MAX_SELECTED
            && multiset(selected) <= multiset(pending)
            && (|selected| == MAX_SELECTED
                || forall tx :: tx in multiset(pending) - multiset(selected) ==> OnTip(c, tip, selected + [tx]).Failure?)
  {
    hide ApplyAll, Selection, SortedByFee;
    NothingOnTip(c, tip);
    SelectionIsMaximal(c, tip, SortedByFee(pending), []);
    SortingIsStable(pending, 0.0);
    var (selected, left) := Selection(c, tip, SortedByFee(pending), []);
    assert multiset(selected) + multiset(left) == multiset(pending);
    forall i | 0 <= i < |selected|
      ensures !IsReward(selected[i])
    {
      assert selected[i] in multiset(selected) + multiset(left);
    }
    assert multiset(pending) - multiset(selected) == multiset(left);
  }

  lemma NothingOnTip(c: Crypto, tip: State)
    ensures OnTip(c, tip, []) == Success(Applied(tip, 0.0))
  {
  }
}

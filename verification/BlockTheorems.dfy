/** What holds along every branch: the fast path is the slow path, the supply is the height times
    the reward, no transaction is replayed and history is never rewritten. */
module BlockTheorems {
  import opened Base
  import opened Ledger
  import opened LedgerTheorems
  import opened Blocks

  // ---- The fast path ----------------------------------------------------------------------

  // For a block with nothing but its reward, the fast path accepts exactly when the slow one
  // does, with the same state.
  lemma FastPathIsSlowPath(r: Rules, b: Block, parent: State)
    requires RewardStructureError(b).None? && b.id != 0 && |b.transactions| == 1
    ensures FastChild(r, b, parent).Some? <==> SlowChild(r, b, parent).Success?
    ensures FastChild(r, b, parent).Some? ==> SlowChild(r, b, parent) == Success(FastChild(r, b, parent).value)
  {
    var tx := b.transactions[0];
    assert b.transactions[..0] == [] && b.transactions == [tx];
    var start := parent.(height := b.id);
    assert ApplyAll(r.crypto, start, [], b.id) == Success(Applied(start, 0.0));
    assert Rewards(b.transactions[1..]) == [];
    assert Rewards(b.transactions) == [tx];
  }

  lemma BuildChildIsSlowChild(r: Rules, b: Block, parent: State)
    ensures BuildChild(r, b, parent) ==
            if HeaderError(r, b).Some? then Failure(HeaderError(r, b).value) else SlowChild(r, b, parent)
  {
    hide SlowChild;
    if HeaderError(r, b).None? && FastChild(r, b, parent).Some? {
      FastPathIsSlowPath(r, b, parent);
    }
  }

  // ---- Supply -----------------------------------------------------------------------------

  function RewardTotal(txs: seq<Transaction>): real {
    if txs == [] then 0.0
    else RewardTotal(txs[..|txs| - 1]) + (if IsReward(txs[|txs| - 1]) then txs[|txs| - 1].amount else 0.0)
  }

  lemma {:induction false} SequenceConserves(c: Crypto, s: State, txs: seq<Transaction>, height: int)
    requires NonNegative(s.balances) && ApplyAll(c, s, txs, height).Success?
    ensures var r := ApplyAll(c, s, txs, height).value;
            && NonNegative(r.state.balances)
            && Sum(r.state.balances) + r.feePaid == Sum(s.balances) + RewardTotal(txs)
  {
    hide Apply, NonNegative;
    if txs != [] {
      var before := txs[..|txs| - 1];
      SequenceConserves(c, s, before, height);
      ApplyConserves(c, ApplyAll(c, s, before, height).value.state, txs[|txs| - 1], height);
    }
  }

  lemma {:induction false} RewardsOf(txs: seq<Transaction>)
    ensures Rewards(txs) == [] ==> RewardTotal(txs) == 0.0
    ensures |Rewards(txs)| == 1 ==> RewardTotal(txs) == Rewards(txs)[0].amount
  {
    if txs != [] {
      var front, last := txs[..|txs| - 1], txs[|txs| - 1];
      RewardsOf(front);
      RewardsAppend(front, last);
      assert front + [last] == txs;
    }
  }

  lemma {:induction false} RewardsAppend(txs: seq<Transaction>, tx: Transaction)
    ensures Rewards(txs + [tx]) == Rewards(txs) + (if IsReward(tx) then [tx] else [])
  {
    if txs == [] {
      assert txs + [tx] == [tx];
    } else {
      RewardsAppend(txs[1..], tx);
      assert (txs + [tx])[1..] == txs[1..] + [tx];
    }
  }

  // A block adds exactly the mining reward to the supply, whatever it contains.
  lemma BlockAddsTheReward(r: Rules, b: Block, parent: State)
    requires b.id != 0 && RewardStructureError(b).None? && NonNegative(parent.balances) && SlowChild(r, b, parent).Success?
    ensures var child := SlowChild(r, b, parent).value;
            NonNegative(child.balances) && Sum(child.balances) == Sum(parent.balances) + MINING_REWARD
  {
    hide ApplyAll, NonNegative, Rewards;
    SequenceConserves(r.crypto, parent.(height := b.id), b.transactions, b.id);
    RewardsOf(b.transactions);
  }

  lemma {:induction false} HeightStays(c: Crypto, s: State, txs: seq<Transaction>, height: int)
    requires ApplyAll(c, s, txs, height).Success?
    ensures ApplyAll(c, s, txs, height).value.state.height == s.height
  {
    hide Apply;
    if txs != [] {
      HeightStays(c, s, txs[..|txs| - 1], height);
      ApplyKeepsRecords(c, ApplyAll(c, s, txs[..|txs| - 1], height).value.state, txs[|txs| - 1], height);
    }
  }

  // At every height of every branch the balances add up to the height times the mining reward,
  // and none is negative.
  lemma {:induction false} SupplyIsHeightTimesReward(r: Rules, branch: seq<Block>)
    requires Replay(r, branch).Success?
    ensures var s := Replay(r, branch).value;
            && s.height == |branch| - 1 == branch[|branch| - 1].id
            && NonNegative(s.balances)
            && Sum(s.balances) == s.height as real * MINING_REWARD
  {
    hide SlowChild, NonNegative;
    var b := branch[|branch| - 1];
    if |branch| == 1 {
      GenesisState(r, b);
    } else {
      var front := branch[..|branch| - 1];
      SupplyIsHeightTimesReward(r, front);
      var parent := Replay(r, front).value;
      BlockAddsTheReward(r, b, parent);
      ChildHeight(r, b, parent);
    }
  }

  lemma GenesisState(r: Rules, b: Block)
    requires RewardStructureError(b).None? && GenesisError(r, b).None?
    ensures SlowChild(r, b, EMPTY_STATE) == Success(EMPTY_STATE.(height := 0))
    ensures NonNegative(EMPTY_STATE.balances) && Sum(EMPTY_STATE.balances) == 0.0
  {
  }

  lemma ChildHeight(r: Rules, b: Block, parent: State)
    requires RewardStructureError(b).None? && SlowChild(r, b, parent).Success?
    ensures SlowChild(r, b, parent).value.height == b.id
  {
    hide ApplyAll;
    HeightStays(r.crypto, parent.(height := b.id), b.transactions, b.id);
  }

  // ---- No replay --------------------------------------------------------------------------

  function Flatten(branch: seq<Block>): seq<Transaction> {
    if branch == [] then [] else Flatten(branch[..|branch| - 1]) + branch[|branch| - 1].transactions
  }

  lemma {:induction false} CountAppend(a: seq<Transaction>, b: seq<Transaction>, wallet: string)
    ensures CountOf(a + b, wallet) == CountOf(a, wallet) + CountOf(b, wallet)
  {
    if b == [] {
      assert a + b == a;
    } else {
      var front := b[..|b| - 1];
      CountAppend(a, front, wallet);
      assert (a + b)[..|a + b| - 1] == a + front;
    }
  }

  lemma {:induction false} CountGrows(txs: seq<Transaction>, i: nat, j: nat, wallet: string)
    requires i <= j <= |txs|
    ensures CountOf(txs[..i], wallet) <= CountOf(txs[..j], wallet)
    ensures i < j && txs[i].sender == wallet && !IsReward(txs[i]) ==> CountOf(txs[..i], wallet) < CountOf(txs[..j], wallet)
    decreases j - i
  {
    if i < j {
      CountGrows(txs, i + 1, j, wallet);
      assert txs[..i + 1][..i] == txs[..i];
    }
  }

  // Every transaction, rewards aside, carries the number of its sender's earlier ones.
  ghost predicate Numbered(txs: seq<Transaction>) {
    forall i :: 0 <= i < |txs| && !IsReward(txs[i]) ==> txs[i].nonce == CountOf(txs[..i], txs[i].sender)
  }

  lemma NumberedAppend(before: seq<Transaction>, more: seq<Transaction>)
    requires Numbered(before)
    requires forall k :: 0 <= k < |more| && !IsReward(more[k]) ==>
               more[k].nonce == CountOf(before, more[k].sender) + CountOf(more[..k], more[k].sender)
    ensures Numbered(before + more)
  {
    var txs := before + more;
    forall i | 0 <= i < |txs| && !IsReward(txs[i])
      ensures txs[i].nonce == CountOf(txs[..i], txs[i].sender)
    {
      if i < |before| {
        assert txs[..i] == before[..i] && txs[i] == before[i];
      } else {
        var k := i - |before|;
        assert txs[i] == more[k] && txs[..i] == before + more[..k];
        CountAppend(before, more[..k], txs[i].sender);
      }
    }
  }

  // After a branch a wallet's nonce is the number of its transactions on the branch, and each of
  // them carried the number of those before it.
  lemma {:induction false} NoncesCountTransactions(r: Rules, branch: seq<Block>)
    requires Replay(r, branch).Success?
    ensures (forall a :: NonceOf(Replay(r, branch).value, a) == CountOf(Flatten(branch), a)) && Numbered(Flatten(branch))
  {
    hide ApplyAll, HeaderError, GenesisError, Numbered, NonceOf, CountOf;
    var b, front := branch[|branch| - 1], branch[..|branch| - 1];
    var parent := if |branch| == 1 then EMPTY_STATE else Replay(r, front).value;
    var before := Flatten(front);
    if |branch| > 1 {
      NoncesCountTransactions(r, front);
    } else {
      assert front == [];
      EmptyCounts();
    }
    var start := parent.(height := b.id);
    SameNonces(parent, b.id);
    SequenceCountsNonces(r.crypto, start, b.transactions, b.id);
    forall a
      ensures CountOf(before + b.transactions, a) == CountOf(before, a) + CountOf(b.transactions, a)
    {
      CountAppend(before, b.transactions, a);
    }
    NumberedAppend(before, b.transactions);
  }

  lemma EmptyCounts()
    ensures Numbered([]) && forall a :: NonceOf(EMPTY_STATE, a) == CountOf([], a)
  {
  }

  lemma SameNonces(s: State, height: int)
    ensures forall a :: NonceOf(s.(height := height), a) == NonceOf(s, a)
  {
  }

  // No wallet spends the same nonce twice on any branch.
  lemma NoReplay(r: Rules, branch: seq<Block>, i: nat, j: nat)
    requires Replay(r, branch).Success? && i < j < |Flatten(branch)|
    requires var txs := Flatten(branch); txs[i].sender == txs[j].sender && !IsReward(txs[i])
    ensures Flatten(branch)[i].nonce < Flatten(branch)[j].nonce
  {
    NoncesCountTransactions(r, branch);
    CountGrows(Flatten(branch), i, j, Flatten(branch)[i].sender);
  }

  // ---- History ----------------------------------------------------------------------------

  lemma RemembersTransitive(s: State, t: State, u: State)
    requires Remembers(s, t) && Remembers(t, u)
    ensures Remembers(s, u)
  {
  }

  lemma {:induction false} SequenceKeepsHistory(c: Crypto, s: State, txs: seq<Transaction>, height: int)
    requires ApplyAll(c, s, txs, height).Success?
    ensures var t := ApplyAll(c, s, txs, height).value.state;
            Remembers(s, t) && (RevealsOpenCommitments(c, s) ==> RevealsOpenCommitments(c, t))
  {
    hide Apply, Remembers, RevealsOpenCommitments;
    if txs == [] {
      SameHistory(c, s, s);
    } else {
      var before := txs[..|txs| - 1];
      SequenceKeepsHistory(c, s, before, height);
      var t := ApplyAll(c, s, before, height).value.state;
      ApplyKeepsRecords(c, t, txs[|txs| - 1], height);
      RemembersTransitive(s, t, ApplyAll(c, s, txs, height).value.state);
    }
  }

  // Along every branch commitments, reveals and contracts are written once and authorizations
  // only appended, and every stored reveal opens the commitment its wallet made earlier.
  lemma {:induction false} HistoryIsWriteOnce(r: Rules, branch: seq<Block>, n: nat)
    requires Replay(r, branch).Success? && 0 < n <= |branch|
    ensures Replay(r, branch[..n]).Success? && Remembers(Replay(r, branch[..n]).value, Replay(r, branch).value)
    ensures RevealsOpenCommitments(r.crypto, Replay(r, branch).value)
    decreases |branch|
  {
    hide ApplyAll, HeaderError, GenesisError, Remembers, RevealsOpenCommitments;
    var b, front := branch[|branch| - 1], branch[..|branch| - 1];
    var parent := if |branch| == 1 then EMPTY_STATE else Replay(r, front).value;
    var start := parent.(height := b.id);
    if |branch| == 1 {
      NothingRevealedYet(r.crypto);
    } else {
      HistoryIsWriteOnce(r, front, if n < |branch| then n else 1);
    }
    SameHistory(r.crypto, parent, start);
    SequenceKeepsHistory(r.crypto, start, b.transactions, b.id);
    var child := Replay(r, branch).value;
    RemembersTransitive(parent, start, child);
    if n == |branch| {
      assert branch[..n] == branch;
      SameHistory(r.crypto, child, child);
    } else {
      assert branch[..n] == front[..n];
      RemembersTransitive(Replay(r, branch[..n]).value, parent, child);
    }
  }

  lemma NothingRevealedYet(c: Crypto)
    ensures RevealsOpenCommitments(c, EMPTY_STATE)
  {
  }

  // The state in which the j-th transaction of a sequence applies.
  ghost function Before(c: Crypto, s: State, txs: seq<Transaction>, j: nat, height: int): State
    requires j <= |txs|
  {
    var reached := ApplyAll(c, s, txs[..j], height);
    if reached.Success? then reached.value.state else s
  }

  // ---- Applying one transaction after the other -------------------------------------------

  function Total(fees: seq<real>): real {
    if fees == [] then 0.0 else Total(fees[..|fees| - 1]) + fees[|fees| - 1]
  }

  lemma NothingApplied(c: Crypto, s: State, txs: seq<Transaction>, height: int)
    ensures ApplyAll(c, s, txs[..0], height) == Success(Applied(s, Total([])))
  {
  }

  lemma NextApplies(c: Crypto, s: State, txs: seq<Transaction>, i: nat, height: int, fees: seq<real>)
    requires i < |txs| && ApplyAll(c, s, txs[..i], height).Success?
    requires ApplyAll(c, s, txs[..i], height).value.feePaid == Total(fees)
    ensures match Apply(c, ApplyAll(c, s, txs[..i], height).value.state, txs[i], height)
            case Failure(e) => ApplyAll(c, s, txs[..i + 1], height) == Failure(e)
            case Success(a) =>
              ApplyAll(c, s, txs[..i + 1], height) == Success(Applied(a.state, Total(fees + (if IsReward(txs[i]) then [] else [a.feePaid]))))
  {
    hide Apply, Total;
    assert txs[..i + 1][..i] == txs[..i];
    var t := ApplyAll(c, s, txs[..i], height).value.state;
    assert fees + [] == fees;
    if Apply(c, t, txs[i], height).Success? {
      RewardsPayNoFee(c, t, txs[i], height);
      TotalGrows(fees, Apply(c, t, txs[i], height).value.feePaid);
    }
  }

  lemma TotalGrows(fees: seq<real>, fee: real)
    ensures Total(fees + [fee]) == Total(fees) + fee
  {
    assert (fees + [fee])[..|fees|] == fees;
  }

  lemma RewardsPayNoFee(c: Crypto, s: State, tx: Transaction, height: int)
    requires Apply(c, s, tx, height).Success?
    ensures IsReward(tx) ==> Apply(c, s, tx, height).value.feePaid == 0.0
  {
    hide ApplyTransfer, ApplyCommit, ApplyReveal, ApplyAuthorize, ApplyDeploy, ApplyExecute;
  }

  // Once a prefix fails to apply, the whole sequence fails with the same error.
  lemma {:induction false} FailureSticks(c: Crypto, s: State, txs: seq<Transaction>, n: nat, height: int)
    requires n <= |txs| && ApplyAll(c, s, txs[..n], height).Failure?
    ensures ApplyAll(c, s, txs, height) == Failure(ApplyAll(c, s, txs[..n], height).error)
    decreases |txs|
  {
    hide Apply;
    if n == |txs| {
      assert txs[..n] == txs;
    } else {
      assert txs[..|txs| - 1][..n] == txs[..n];
      FailureSticks(c, s, txs[..|txs| - 1], n, height);
    }
  }
}

/** Commitments and reveals along a branch: which transactions put them on record, and in which order. */
module History {
  import opened Base
  import opened Ledger
  import opened LedgerTheorems
  import opened LedgerAuthority
  import opened Blocks
  import opened BlockTheorems
  import Uvm

  ghost predicate Commits(tx: Transaction, request: string, wallet: string, commitment: nat) {
    tx.sender == wallet && tx.payload == CommitHash(request, Some(commitment))
  }

  ghost predicate Reveals(tx: Transaction, request: string, wallet: string, entry: Uvm.Reveal) {
    tx.sender == wallet && tx.payload == RevealSeed(request, Some(entry.seed), Some(entry.salt))
  }

  ghost predicate Committed(past: seq<Transaction>, request: string, wallet: string, commitment: nat) {
    exists i :: 0 <= i < |past| && Commits(past[i], request, wallet, commitment)
  }

  // The reveal opens a commitment of the same wallet and request, by an earlier transaction.
  ghost predicate Opened(c: Crypto, past: seq<Transaction>, request: string, wallet: string, entry: Uvm.Reveal) {
    && c.commitmentOf(wallet, request, entry.seed, entry.salt) == entry.commitment
    && exists j :: 0 <= j < |past| && Reveals(past[j], request, wallet, entry) && Committed(past[..j], request, wallet, entry.commitment)
  }

  // Everything committed and revealed was put on record by the past transactions, in that order.
  ghost predicate Recorded(c: Crypto, past: seq<Transaction>, s: State) {
    && (forall r, w :: CommitmentIn(s, r, w).Some? ==> Committed(past, r, w, CommitmentIn(s, r, w).value))
    && (forall r, w :: RevealIn(s, r, w).Some? ==> Opened(c, past, r, w, RevealIn(s, r, w).value))
  }

  // ---- What one transaction records -------------------------------------------------------

  lemma CommitRecords(s: State, tx: Transaction)
    requires tx.payload.CommitHash? && ApplyCommit(s, tx).Success?
    ensures var p, s' := tx.payload, ApplyCommit(s, tx).value.state;
            && p.commitment.Some?
            && (forall r, w :: CommitmentIn(s', r, w) == if r == p.requestId && w == tx.sender then p.commitment else CommitmentIn(s, r, w))
            && (forall r, w :: RevealIn(s', r, w) == RevealIn(s, r, w))
  {
    hide Put, Bal;
    PutKeepsOthers(s.commitments, tx.payload.requestId, tx.sender, tx.payload.commitment.value);
  }

  lemma RevealRecords(c: Crypto, s: State, tx: Transaction)
    requires tx.payload.RevealSeed? && ApplyReveal(c, s, tx).Success?
    ensures var p, s' := tx.payload, ApplyReveal(c, s, tx).value.state;
            && p.seed.Some? && p.salt.Some?
            && var commitment := c.commitmentOf(tx.sender, p.requestId, p.seed.value, p.salt.value);
               && CommitmentIn(s, p.requestId, tx.sender) == Some(commitment)
               && (forall r, w :: CommitmentIn(s', r, w) == CommitmentIn(s, r, w))
               && (forall r, w :: RevealIn(s', r, w) == if r == p.requestId && w == tx.sender
                                                        then Some(Uvm.Reveal(p.seed.value, p.salt.value, commitment)) else RevealIn(s, r, w))
  {
    hide Put, Bal;
    var p := tx.payload;
    PutKeepsOthers(s.revealed, p.requestId, tx.sender,
                   Uvm.Reveal(p.seed.value, p.salt.value, s.commitments[p.requestId][tx.sender]));
  }

  lemma OthersRecordNothing(c: Crypto, s: State, tx: Transaction, height: int)
    requires Apply(c, s, tx, height).Success? && (IsReward(tx) || !(tx.payload.CommitHash? || tx.payload.RevealSeed?))
    ensures var s' := Apply(c, s, tx, height).value.state; s'.commitments == s.commitments && s'.revealed == s.revealed
  {
    hide Execution, FuelFee, Executed, Bal, Credited, AuthenticityError, ApplyCommit, ApplyReveal, ApplyAuthorize, ApplyDeploy;
    if IsReward(tx) || tx.payload.TransferFunds? {
    } else if tx.payload.ExecuteCode? {
      var e := Execution(c, s, tx, height);
      ExecutedRecordsNothing(c, s, tx, e, FuelFee(tx, e.gasUsed));
    } else {
      RecordedKind(c, s, tx, height);
      RecordedElsewhere(c, s, tx, height);
    }
  }

  lemma RecordedElsewhere(c: Crypto, s: State, tx: Transaction, height: int)
    ensures tx.payload.AuthorizeUse? && ApplyAuthorize(s, tx, height).Success? ==>
              var s' := ApplyAuthorize(s, tx, height).value.state; s'.commitments == s.commitments && s'.revealed == s.revealed
    ensures tx.payload.DeployCode? && ApplyDeploy(c, s, tx).Success? ==>
              var s' := ApplyDeploy(c, s, tx).value.state; s'.commitments == s.commitments && s'.revealed == s.revealed
  {
    hide Bal, AuthorizeError, DeployError;
  }

  lemma ExecutedRecordsNothing(c: Crypto, s: State, tx: Transaction, e: Uvm.Execution, feePaid: real)
    ensures var s' := Executed(c, s, tx, e, feePaid); s'.commitments == s.commitments && s'.revealed == s.revealed
  {
    hide Credited, Merged, Bal;
  }

  lemma SameEntries(s: State, s': State)
    requires s'.commitments == s.commitments && s'.revealed == s.revealed
    ensures forall r, w :: CommitmentIn(s', r, w) == CommitmentIn(s, r, w) && RevealIn(s', r, w) == RevealIn(s, r, w)
  {
  }

  // ---- Keeping the order ------------------------------------------------------------------

  lemma PastGrows(c: Crypto, past: seq<Transaction>, tx: Transaction, s: State)
    requires Recorded(c, past, s)
    ensures Recorded(c, past + [tx], s)
  {
    hide Commits, Reveals, CommitmentIn, RevealIn;
    var more := past + [tx];
    forall r, w | CommitmentIn(s, r, w).Some?
      ensures Committed(more, r, w, CommitmentIn(s, r, w).value)
    {
      var i :| 0 <= i < |past| && Commits(past[i], r, w, CommitmentIn(s, r, w).value);
      assert more[i] == past[i];
    }
    forall r, w | RevealIn(s, r, w).Some?
      ensures Opened(c, more, r, w, RevealIn(s, r, w).value)
    {
      var entry := RevealIn(s, r, w).value;
      var j :| 0 <= j < |past| && Reveals(past[j], r, w, entry) && Committed(past[..j], r, w, entry.commitment);
      assert more[j] == past[j] && more[..j] == past[..j];
    }
  }

  lemma ApplyKeepsOrder(c: Crypto, past: seq<Transaction>, s: State, tx: Transaction, height: int)
    requires Apply(c, s, tx, height).Success? && Recorded(c, past, s)
    ensures Recorded(c, past + [tx], Apply(c, s, tx, height).value.state)
  {
    hide Apply, ApplyCommit, ApplyReveal, CommitmentIn, RevealIn, Committed, Opened;
    var s' := Apply(c, s, tx, height).value.state;
    PastGrows(c, past, tx, s);
    if IsReward(tx) || !(tx.payload.CommitHash? || tx.payload.RevealSeed?) {
      OthersRecordNothing(c, s, tx, height);
      SameEntries(s, s');
    } else {
      RecordedKind(c, s, tx, height);
      if tx.payload.CommitHash? {
        CommitRecords(s, tx);
        NewCommitment(past, tx);
      } else {
        RevealRecords(c, s, tx);
        NewReveal(c, past, s, tx);
      }
    }
  }

  lemma NewCommitment(past: seq<Transaction>, tx: Transaction)
    requires tx.payload.CommitHash? && tx.payload.commitment.Some?
    ensures Committed(past + [tx], tx.payload.requestId, tx.sender, tx.payload.commitment.value)
  {
    assert (past + [tx])[|past|] == tx;
  }

  lemma NewReveal(c: Crypto, past: seq<Transaction>, s: State, tx: Transaction)
    requires tx.payload.RevealSeed? && tx.payload.seed.Some? && tx.payload.salt.Some? && Recorded(c, past, s)
    requires var p := tx.payload;
             CommitmentIn(s, p.requestId, tx.sender) == Some(c.commitmentOf(tx.sender, p.requestId, p.seed.value, p.salt.value))
    ensures var p := tx.payload;
            var entry := Uvm.Reveal(p.seed.value, p.salt.value, c.commitmentOf(tx.sender, p.requestId, p.seed.value, p.salt.value));
            Opened(c, past + [tx], p.requestId, tx.sender, entry)
  {
    hide CommitmentIn, Committed;
    assert (past + [tx])[|past|] == tx && (past + [tx])[..|past|] == past;
  }

  lemma {:induction false} SequenceKeepsOrder(c: Crypto, past: seq<Transaction>, s: State, txs: seq<Transaction>, height: int)
    requires ApplyAll(c, s, txs, height).Success? && Recorded(c, past, s)
    ensures Recorded(c, past + txs, ApplyAll(c, s, txs, height).value.state)
  {
    hide Apply, Recorded;
    if txs == [] {
      assert past + txs == past;
    } else {
      var front, tx := txs[..|txs| - 1], txs[|txs| - 1];
      SequenceKeepsOrder(c, past, s, front, height);
      ApplyKeepsOrder(c, past + front, ApplyAll(c, s, front, height).value.state, tx, height);
      assert past + txs == past + front + [tx];
    }
  }

  // ---- Branches ---------------------------------------------------------------------------

  // Every commitment on record after a branch was made by a transaction of the branch, and every
  // reveal by one that comes after the commitment it opens.
  lemma {:induction false} RevealsFollowCommitments(r: Rules, branch: seq<Block>)
    requires Replay(r, branch).Success?
    ensures Recorded(r.crypto, Flatten(branch), Replay(r, branch).value)
  {
    hide ApplyAll, HeaderError, GenesisError, Recorded;
    var b, front := branch[|branch| - 1], branch[..|branch| - 1];
    var parent := if |branch| == 1 then EMPTY_STATE else Replay(r, front).value;
    if |branch| > 1 {
      RevealsFollowCommitments(r, front);
    } else {
      assert front == [];
      NothingYet(r.crypto);
    }
    SameRecorded(r.crypto, Flatten(front), parent, b.id);
    SequenceKeepsOrder(r.crypto, Flatten(front), parent.(height := b.id), b.transactions, b.id);
  }

  lemma NothingYet(c: Crypto)
    ensures Recorded(c, [], EMPTY_STATE)
  {
  }

  lemma SameRecorded(c: Crypto, past: seq<Transaction>, s: State, height: int)
    requires Recorded(c, past, s)
    ensures Recorded(c, past, s.(height := height))
  {
    hide Committed, Opened;
    SameEntries(s, s.(height := height));
  }
}

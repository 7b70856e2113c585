/** Which blocks their hash tells apart: the words a block is hashed by leave out the kind and payload
    of version-1 transactions. */
module HashedBlocks {
  import opened Base
  import opened Ledger
  import opened LedgerTheorems
  import opened Blocks
  import opened BlockAssembly
  import opened Mempool
  import opened RewardBranches
  import opened Orphans
  import SpoiledBlocks
  import Consent
  import Uvm

  ghost predicate Authentic(c: Crypto, b: Block) {
    forall i :: 0 <= i < |b.transactions| ==> AuthenticityError(c, b.transactions[i]).None?
  }

  ghost predicate NoLegacy(b: Block) {
    forall i :: 0 <= i < |b.transactions| ==> b.transactions[i].version != LEGACY_VERSION
  }

  // No other authentic block under the same claimed hash has the same words.
  ghost predicate FixedByWords(c: Crypto, b: Block) {
    forall other: Block :: Authentic(c, other) && BlockWordsOf(other) == BlockWordsOf(b) && other.hash == b.hash ==> other == b
  }

  // ---- Words and transactions -------------------------------------------------------------

  lemma TypedWordsFixTheTransaction(c: Crypto, tx: Transaction, other: Transaction)
    requires AuthenticityError(c, tx).None? && AuthenticityError(c, other).None?
    requires HashedOf(tx) == HashedOf(other) && tx.version != LEGACY_VERSION
    ensures tx == other
  {
    assert WordsOf(tx) == WordsOf(other);
  }

  function OtherPayload(tx: Transaction): Transaction {
    tx.(payload := if tx.payload.TransferFunds? then OtherKind("") else TransferFunds)
  }

  lemma LegacyWordsFitAnyPayload(c: Crypto, tx: Transaction, payload: Payload)
    requires tx.version == LEGACY_VERSION
    ensures HashedOf(tx.(payload := payload)) == HashedOf(tx)
    ensures AuthenticityError(c, tx.(payload := payload)) == AuthenticityError(c, tx)
  {
    Consent.LegacySignaturesFitAnyPayload(c, tx, payload);
  }

  // ---- Words and blocks -------------------------------------------------------------------

  lemma SameWordsAt(b: Block, other: Block, i: nat)
    requires BlockWordsOf(b) == BlockWordsOf(other) && i < |b.transactions|
    ensures i < |other.transactions| && HashedOf(b.transactions[i]) == HashedOf(other.transactions[i])
  {
    hide HashedOf;
    assert BlockWordsOf(b).transactions[i] == BlockWordsOf(other).transactions[i];
  }

  lemma TypedWordsFixTheBlock(c: Crypto, b: Block, other: Block)
    requires Authentic(c, b) && Authentic(c, other) && NoLegacy(b)
    requires BlockWordsOf(b) == BlockWordsOf(other) && b.hash == other.hash
    ensures b == other
  {
    hide AuthenticityError, HashedOf;
    assert |BlockWordsOf(b).transactions| == |BlockWordsOf(other).transactions|;
    forall i | 0 <= i < |b.transactions|
      ensures b.transactions[i] == other.transactions[i]
    {
      SameWordsAt(b, other, i);
      TypedWordsFixTheTransaction(c, b.transactions[i], other.transactions[i]);
    }
  }

  lemma LegacyWordsDoNot(c: Crypto, b: Block, i: nat) returns (other: Block)
    requires Authentic(c, b) && i < |b.transactions| && b.transactions[i].version == LEGACY_VERSION
    ensures other != b && Authentic(c, other) && BlockWordsOf(other) == BlockWordsOf(b) && other.hash == b.hash
  {
    hide AuthenticityError, HashedOf;
    var tx := b.transactions[i];
    LegacyWordsFitAnyPayload(c, tx, OtherPayload(tx).payload);
    other := b.(transactions := b.transactions[i := OtherPayload(tx)]);
    assert other.transactions[i].payload != tx.payload;
    assert BlockWordsOf(other).transactions == BlockWordsOf(b).transactions;
  }

  // The words of an authentic block fix it exactly when it holds no version-1 transaction.
  lemma WordsFixExactlyTypedBlocks(c: Crypto, b: Block)
    requires Authentic(c, b)
    ensures FixedByWords(c, b) <==> NoLegacy(b)
  {
    hide Authentic, HashedOf;
    if NoLegacy(b) {
      forall other: Block | Authentic(c, other) && BlockWordsOf(other) == BlockWordsOf(b) && other.hash == b.hash
        ensures other == b
      {
        TypedWordsFixTheBlock(c, b, other);
      }
    } else {
      var i :| 0 <= i < |b.transactions| && b.transactions[i].version == LEGACY_VERSION;
      var other := LegacyWordsDoNot(c, b, i);
    }
  }

  // Authentic, claiming its own hash, and without version-1 transactions.
  ghost predicate Typed(r: Rules, b: Block) {
    Authentic(r.crypto, b) && NoLegacy(b) && b.hash == HashOf(r, b)
  }

  ghost predicate TellsWordsApart(r: Rules) {
    forall u, v :: r.hashBlock(u) == r.hashBlock(v) ==> u == v
  }

  // Under a hash that tells words apart such blocks carry distinct hashes.
  lemma TypedBlocksAreDistinct(r: Rules, blocks: seq<Block>)
    requires TellsWordsApart(r) && forall b :: b in blocks ==> Typed(r, b)
    ensures DistinctHashes(blocks)
  {
    hide Authentic, NoLegacy, BlockWordsOf;
    forall b, other | b in blocks && other in blocks && b.hash == other.hash
      ensures b == other
    {
      assert Typed(r, b) && Typed(r, other);
      assert BlockWordsOf(b) == BlockWordsOf(other);
      TypedWordsFixTheBlock(r.crypto, b, other);
    }
  }

  // ---- Two blocks under one hash ----------------------------------------------------------

  // The signed version-1 call with one payload or another.
  function Copied(request: string): Transaction {
    Consent.LEGACY_CALL.(payload := AuthorizeUse("contract", Some("code"), request, Some(Uvm.Scope(None, None))))
  }

  function CopyBlock(height: int, tipHash: string, request: string, seal: Seal): Block {
    MinedBlock(height, tipHash, [Copied(request)], 0.0, "miner", "", "", seal)
  }

  lemma CopiesShareTheirWords(r: Rules, height: int, tipHash: string, seal: Seal)
    ensures var b, other := CopyBlock(height, tipHash, "one", seal), CopyBlock(height, tipHash, "other", seal);
            b != other && b.hash == other.hash && BlockWordsOf(b) == BlockWordsOf(other) && VerificationError(r, b) == VerificationError(r, other)
  {
    var b, other := CopyBlock(height, tipHash, "one", seal), CopyBlock(height, tipHash, "other", seal);
    assert "one"[0] == 'o' && |"one"| != |"other"|;
    assert b.transactions[1] == Copied("one") && other.transactions[1] == Copied("other");
    assert HashedOf(Copied("one")) == HashedOf(Copied("other"));
    assert BlockWordsOf(b).transactions == BlockWordsOf(other).transactions;
  }

  // On every state of rewards to a miner the block applies, and puts its request on record.
  lemma CopyBlockApplies(r: Rules, n: nat, tipHash: string, request: string, seal: Seal)
    requires SignedBy(r.crypto, Consent.LEGACY_CALL, "wallet") && RequestIdError(request).None?
    requires VerificationError(r, CopyBlock(n + 1, tipHash, request, seal)).None?
    ensures var child := BuildChild(r, CopyBlock(n + 1, tipHash, request, seal), RewardTip("miner", n));
            child.Success? && |child.value.authorizations| == 1 && child.value.authorizations[0].requestId == request
  {
    hide VerificationError, BuildChild, ApplyAuthorize, Charged;
    var c, tip, tx, h := r.crypto, RewardTip("miner", n), Copied(request), n + 1;
    CopyApplies(c, tip, request, h);
    SpoiledBlocks.JustOne(c, tip, tx, h);
    WithoutExecutesSteady(c, tip, [tx], h, "miner");
    MinedBlockIsAccepted(r, tip, tipHash, [tx], "miner", "", "", seal);
  }

  lemma CopyApplies(c: Crypto, s: State, request: string, height: int)
    requires SignedBy(c, Consent.LEGACY_CALL, "wallet") && RequestIdError(request).None?
    requires s.contracts == map[] && s.authorizations == [] && NonceOf(s, "wallet") == 0 && Bal(s.balances, "wallet") >= 0.0
    ensures var r := Apply(c, s, Copied(request), height);
            && r.Success? && r.value.feePaid == 0.0
            && |r.value.state.authorizations| == 1 && r.value.state.authorizations[0].requestId == request
  {
    hide Charged, Bal, RequestIdError;
    Consent.LegacySignaturesFitAnyPayload(c, Consent.LEGACY_CALL, Copied(request).payload);
    assert AuthorizeError(Copied(request), s).None?;
  }
}

/** The search for a proof of work: hashing prepared blocks, testing leading zero bits word by word,
    and walking through the nonces. */
module ProofOfWork {
  import A = Arithmetic
  import opened Decimals
  import opened Sha256Blocks

  // ---- The hash of a nonce ----------------------------------------------------------------

  // What has to be searched through: a prefix followed by the decimal numeral of a nonce.
  function NonceHash(h: Hash, prefix: seq<int>, nonce: nat): seq<int> {
    Digest(h, prefix + Decimal(nonce))
  }

  lemma DigestByBlocks(h: Hash, whole: seq<int>, rest: seq<int>, digits: seq<int>)
    requires |whole| % 64 == 0
    ensures var message := whole + rest + digits;
            (|rest + digits + Padding(|message|)|) % 64 == 0
            && Digest(h, message) == Fold(h, Fold(h, h.initial, whole), rest + digits + Padding(|message|))
  {
    hide Fold, LengthBytes;
    var message := whole + rest + digits;
    PaddingFillsBlocks(|message|, 0);
    FoldAppend(h, h.initial, whole, rest + digits + Padding(|message|));
    assert message + Padding(|message|) == whole + (rest + digits + Padding(|message|));
  }

  lemma FoldOneOrTwo(h: Hash, state: seq<int>, a: seq<int>, b: seq<int>)
    requires |a| == 64 && |b| == 64
    ensures Fold(h, state, a) == h.compress(state, a)
    ensures Fold(h, state, a + b) == h.compress(h.compress(state, a), b)
  {
    assert a[..0] == [] && a[0..] == a;
    assert (a + b)[..64] == a && (a + b)[64..] == b;
  }

  method HashPrepared(h: Hash, prefix: Context, prepared: PreparedBlocks, ghost message: seq<int>, ghost digits: seq<int>) returns (state: seq<int>)
    requires prefix.Holds(h, message) && prepared.Laid(prefix.data[..prefix.dataLength], digits, |message| + |digits|)
    ensures state == Digest(h, message + digits)
  {
    hide Padding, FirstTail, SecondTail, Digest;
    ghost var rest := prefix.data[..prefix.dataLength];
    ghost var whole := message[..|message| - prefix.dataLength];
    assert message == whole + rest;
    prepared.LaidBlocks(rest, digits, |message| + |digits|);
    DigestByBlocks(h, whole, rest, digits);
    FoldOneOrTwo(h, prefix.state, prepared.first[..], prepared.second[..]);
    assert prepared.first[..] + [] == prepared.first[..];
    state := h.compress(prefix.state, prepared.first[..]);
    if prepared.usesSecond {
      state := h.compress(state, prepared.second[..]);
    }
  }

  // The plain way: the digits go into a copy of the context, which is then completed.
  method HashPrefixWithNonce(h: Hash, prefix: Context, nonce: nat, ghost message: seq<int>) returns (state: seq<int>)
    requires prefix.Holds(h, message)
    ensures state == NonceHash(h, message, nonce)
  {
    var context := new Context.Copy(prefix, h, message);
    context.Update(h, Decimal(nonce), message);
    state := Complete(h, context, message + Decimal(nonce));
  }

  method Complete(h: Hash, context: Context, ghost message: seq<int>) returns (state: seq<int>)
    requires context.Holds(h, message)
    modifies context.data
    ensures state == Digest(h, message)
  {
    hide LengthBytes, Padding, Zeros, Digest, Fold, Placed;
    var data, n := context.data, context.dataLength;
    ghost var rest, whole := data[..n], message[..|message| - n];
    assert message == whole + rest && |whole| + n == |message|;
    var bits := (context.bitLength + 8 * n) % U64;
    assert LengthBytes(bits) == LengthBytes(8 * (|whole| + n)) by {
      LengthInBits(context.bitLength, |whole|, n);
    }
    assert |whole| % 64 == 0 && n == |rest|;
    state := context.state;
    ClearFrom(data, n);
    data[n] := 0x80;
    assert data[..] == (rest + Zeros(64 - n))[n := 0x80];
    if n < 56 {
      OneBlockLeft(h, whole, rest);
    } else {
      TwoBlocksLeft(h, whole, rest);
      state := h.compress(state, data[..]);
      ClearFrom(data, 0);
      assert data[..] == Zeros(64);
    }
    WriteLength(data, bits);
    state := h.compress(state, data[..]);
  }

  lemma OneBlockLeft(h: Hash, whole: seq<int>, rest: seq<int>)
    requires |whole| % 64 == 0 && |rest| < 56
    ensures Digest(h, whole + rest)
         == h.compress(Fold(h, h.initial, whole),
                       Placed((rest + Zeros(64 - |rest|))[|rest| := 0x80], 56, LengthBytes(8 * (|whole| + |rest|))))
  {
    hide LengthBytes, Padding, Zeros, Digest, Fold, Placed;
    A.DividesOnce(64, |whole| / 64, |rest|);
    EndOfBlock(rest, |whole| + |rest|);
    DigestByBlocks(h, whole, rest, []);
    assert whole + rest + [] == whole + rest && rest + [] == rest;
    var block := rest + Padding(|whole| + |rest|);
    FoldOneOrTwo(h, Fold(h, h.initial, whole), block, block);
  }

  lemma TwoBlocksLeft(h: Hash, whole: seq<int>, rest: seq<int>)
    requires |whole| % 64 == 0 && 56 <= |rest| < 64
    ensures Digest(h, whole + rest)
         == h.compress(h.compress(Fold(h, h.initial, whole), (rest + Zeros(64 - |rest|))[|rest| := 0x80]),
                       Placed(Zeros(64), 56, LengthBytes(8 * (|whole| + |rest|))))
  {
    hide LengthBytes, Padding, Zeros, Digest, Fold, Placed;
    var padding, room := Padding(|whole| + |rest|), 64 - |rest|;
    A.DividesOnce(64, |whole| / 64, |rest|);
    EndOfTwoBlocks(rest, |whole| + |rest|);
    DigestByBlocks(h, whole, rest, []);
    assert whole + rest + [] == whole + rest && rest + [] == rest;
    assert rest + padding == (rest + padding[..room]) + padding[room..];
    FoldOneOrTwo(h, Fold(h, h.initial, whole), rest + padding[..room], padding[room..]);
  }

  method ClearFrom(a: array<int>, n: nat)
    requires n <= a.Length
    modifies a
    ensures a[..] == old(a[..n]) + Zeros(a.Length - n)
  {
    for i := n to a.Length
      invariant a[..n] == old(a[..n]) && forall k :: n <= k < i ==> a[k] == 0
    {
      a[i] := 0;
    }
  }

  // ---- Leading zero bits ------------------------------------------------------------------

  function Power2(n: nat): nat
    ensures Power2(n) >= 1
  {
    if n == 0 then 1 else 2 * Power2(n - 1)
  }

  const WORD: int := 0x1_0000_0000

  predicate AreWords(words: seq<int>) {
    forall i :: 0 <= i < |words| ==> 0 <= words[i] < WORD
  }

  // A digest as one number, most significant word first.
  function NumberOf(words: seq<int>): int {
    if words == [] then 0 else WORD * NumberOf(words[..|words| - 1]) + words[|words| - 1]
  }

  // The test on whole numbers: the hexadecimal digest, shifted right.
  predicate HasLeadingZeroBits(number: int, totalBits: nat, difficulty: int) {
    difficulty <= 0 || (difficulty <= totalBits && number / Power2(totalBits - difficulty) == 0)
  }

  // A word with all but its high bits cleared.
  function HighBits(word: nat, bits: nat): nat
    requires bits <= 32
  {
    word - word % Power2(32 - bits)
  }

  lemma Power2Plus8(a: nat)
    ensures Power2(a + 8) == 256 * Power2(a)
  {
    assert Power2(a + 2) == 2 * Power2(a + 1) == 4 * Power2(a);
    assert Power2(a + 4) == 2 * Power2(a + 3) == 4 * Power2(a + 2);
    assert Power2(a + 6) == 2 * Power2(a + 5) == 4 * Power2(a + 4);
    assert Power2(a + 8) == 2 * Power2(a + 7) == 4 * Power2(a + 6);
  }

  lemma Power2Plus32(a: nat)
    ensures Power2(a + 32) == WORD * Power2(a)
  {
    hide Power2;
    Power2Plus8(a);
    Power2Plus8(a + 8);
    Power2Plus8(a + 16);
    Power2Plus8(a + 24);
  }

  lemma {:induction false} Power2Grows(a: nat, b: nat)
    requires a <= b
    ensures Power2(a) <= Power2(b)
    decreases b
  {
    if a < b {
      Power2Grows(a, b - 1);
    }
  }

  // The first difficulty bits of the words are zero.
  predicate StartsWithZeros(words: seq<int>, difficulty: nat)
    requires difficulty <= 32 * |words|
  {
    && (forall k :: 0 <= k < difficulty / 32 ==> words[k] == 0)
    && (difficulty % 32 != 0 ==> words[difficulty / 32] < Power2(32 - difficulty % 32))
  }

  lemma {:induction false} NumberIsZero(words: seq<int>)
    requires AreWords(words)
    ensures NumberOf(words) >= 0 && (NumberOf(words) == 0 <==> forall k :: 0 <= k < |words| ==> words[k] == 0)
  {
    if words != [] {
      NumberIsZero(words[..|words| - 1]);
    }
  }

  lemma {:induction false} StartsWithZerosByNumber(words: seq<int>, difficulty: nat)
    requires AreWords(words) && difficulty <= 32 * |words|
    ensures NumberOf(words) < Power2(32 * |words| - difficulty) <==> StartsWithZeros(words, difficulty)
    decreases |words|
  {
    if words == [] {
    } else {
      var front, last := words[..|words| - 1], words[|words| - 1];
      NumberIsZero(front);
      if difficulty <= 32 * |front| {
        StartsWithZerosByNumber(front, difficulty);
        Power2Plus32(32 * |front| - difficulty);
        hide Power2;
        assert StartsWithZeros(words, difficulty) <==> StartsWithZeros(front, difficulty);
      } else {
        LastWordDecides(words, difficulty);
      }
    }
  }

  lemma LastWordDecides(words: seq<int>, difficulty: nat)
    requires words != [] && AreWords(words) && 32 * (|words| - 1) < difficulty <= 32 * |words|
    ensures NumberOf(words) < Power2(32 * |words| - difficulty) <==> StartsWithZeros(words, difficulty)
  {
    var front, last := words[..|words| - 1], words[|words| - 1];
    NumberIsZero(front);
    NumberIsZero(words);
    Power2Plus32(0);
    Power2Grows(32 * |words| - difficulty, 32);
    if difficulty == 32 * |words| {
      assert Power2(0) == 1;
    } else {
      hide Power2;
      assert difficulty / 32 == |front|;
      assert 32 - difficulty % 32 == 32 * |words| - difficulty;
    }
  }

  lemma HighBitsAreZero(word: nat, bits: nat)
    requires bits <= 32
    ensures HighBits(word, bits) == 0 <==> word < Power2(32 - bits)
  {
    hide Power2;
  }

  lemma ShiftedToZero(number: nat, p: nat)
    requires p >= 1
    ensures number / p == 0 <==> number < p
  {
  }

  // The test on words: whole zero words, then the high bits of the next one.
  method WordsHaveLeadingZeroBits(words: seq<int>, difficulty: nat) returns (r: bool)
    requires |words| == 8 && AreWords(words) && difficulty <= 256
    ensures r == HasLeadingZeroBits(NumberOf(words), 256, difficulty)
  {
    hide NumberOf, Power2, HighBits;
    NumberIsZero(words);
    StartsWithZerosByNumber(words, difficulty);
    ShiftedToZero(NumberOf(words), Power2(256 - difficulty));
    var fullZeroWords, remainingBits := difficulty / 32, difficulty % 32;
    for index := 0 to fullZeroWords
      invariant forall k :: 0 <= k < index ==> words[k] == 0
    {
      if words[index] != 0 {
        return false;
      }
    }
    if remainingBits == 0 {
      return true;
    }
    HighBitsAreZero(words[fullZeroWords], remainingBits);
    return HighBits(words[fullZeroWords], remainingBits) == 0;
  }

  // ---- The search -------------------------------------------------------------------------

  const CANCEL_CHECK_INTERVAL: nat := 1024

  // Digests are eight words.
  ghost predicate Sane(h: Hash) {
    forall message :: |Digest(h, message)| == 8 && AreWords(Digest(h, message))
  }

  function NonceAt(start: nat, step: nat, k: nat): nat {
    if k == 0 then start else NonceAt(start, step, k - 1) + step
  }

  lemma {:induction false} NoncesAreEvenlySpaced(start: nat, step: nat, k: nat)
    ensures NonceAt(start, step, k) == start + k * step
  {
    if k > 0 {
      NoncesAreEvenlySpaced(start, step, k - 1);
      assert k * step == (k - 1) * step + step;
    }
  }

  predicate Wins(h: Hash, prefix: seq<int>, difficulty: nat, nonce: nat) {
    HasLeadingZeroBits(NumberOf(NonceHash(h, prefix, nonce)), 256, difficulty)
  }

  datatype SearchResult = SearchResult(found: bool, cancelled: bool, nonceError: bool, nonce: nat, attempts: nat, digest: seq<int>)

  ghost predicate NoWinnerBefore(h: Hash, prefix: seq<int>, difficulty: nat, start: nat, step: nat, k: nat) {
    forall j: nat :: j < k ==> !Wins(h, prefix, difficulty, NonceAt(start, step, j))
  }

  // What a search that made k attempts may report. Nonces and attempts are 64-bit counters.
  ghost predicate Reported(h: Hash, prefix: seq<int>, difficulty: nat, start: nat, step: nat, limit: nat,
                           cancelRequested: nat -> bool, k: nat, r: SearchResult)
  {
    && r.attempts == k % U64 && (limit != 0 ==> k <= limit)
    && (if r.found then
          && !r.cancelled && !r.nonceError && k >= 1
          && Wins(h, prefix, difficulty, NonceAt(start, step, k - 1)) && NoWinnerBefore(h, prefix, difficulty, start, step, k - 1)
          && r.digest == NonceHash(h, prefix, NonceAt(start, step, k - 1))
        else NoWinnerBefore(h, prefix, difficulty, start, step, k))
    && (if r.cancelled || r.nonceError then r.nonce == NonceAt(start, step, k) % U64
        else k >= 1 && r.nonce == NonceAt(start, step, k - 1) % U64)
    && (r.cancelled ==> k % CANCEL_CHECK_INTERVAL == 0 && cancelRequested(k))
    && (r.nonceError ==> NonceAt(start, step, k) >= Power10(NONCE_BUFFER_LENGTH - 1) && (limit == 0 || k < limit))
    && (!r.found && !r.cancelled && !r.nonceError ==> limit != 0 && k == limit)
  }

  lemma LongNumerals(n: nat)
    ensures |Decimal(n)| >= NONCE_BUFFER_LENGTH ==> n >= Power10(NONCE_BUFFER_LENGTH - 1)
    ensures |Decimal(n)| < NONCE_BUFFER_LENGTH ==> n < Power10(NONCE_BUFFER_LENGTH - 1)
  {
    hide Decimal;
    DecimalDenotes(n);
    DenotesBounds(Decimal(n));
    if |Decimal(n)| >= NONCE_BUFFER_LENGTH {
      Power10Grows(NONCE_BUFFER_LENGTH - 1, |Decimal(n)| - 1);
    } else {
      Power10Grows(|Decimal(n)|, NONCE_BUFFER_LENGTH - 1);
    }
  }

  // The buffer and the blocks are ready for the k-th nonce.
  ghost predicate Ready(prefix: Context, prepared: PreparedBlocks, buffer: array<int>, length: nat, message: seq<int>, nonce: nat)
    reads prefix, prefix.data, prepared, prepared.first, prepared.second, buffer
  {
    && prefix.Valid() && buffer.Length == NONCE_BUFFER_LENGTH && 1 <= length < NONCE_BUFFER_LENGTH && buffer[..length] == Decimal(nonce)
    && prepared.Laid(prefix.data[..prefix.dataLength], Decimal(nonce), |message| + length)
  }

  // Moves on to the next nonce, patching the buffer and the blocks; false when it does not fit.
  method Advance(prefix: Context, prepared: PreparedBlocks, buffer: array<int>, length: nat, step: nat,
                 ghost h: Hash, ghost message: seq<int>, ghost nonce: nat) returns (ok: bool, newLength: nat)
    requires prefix.Holds(h, message) && Ready(prefix, prepared, buffer, length, message, nonce) && 1 <= step < U64
    requires {prepared.first, prepared.second} !! {prefix.data, buffer} && buffer != prefix.data
    modifies prepared, prepared.first, prepared.second, buffer
    ensures ok == (|Decimal(nonce + step)| < NONCE_BUFFER_LENGTH)
    ensures ok ==> Ready(prefix, prepared, buffer, newLength, message, nonce + step)
  {
    hide Decimal, Fold, FirstTail, SecondTail;
    ghost var rest := prefix.data[..prefix.dataLength];
    var changed;
    if step == 1 {
      changed, newLength := IncrementByOne(buffer, length, nonce);
    } else {
      changed, newLength := IncrementBy(buffer, length, step, nonce);
    }
    if changed < 0 || newLength >= NONCE_BUFFER_LENGTH {
      return false, newLength;
    }
    if newLength != length {
      prepared.Prepare(prefix, buffer, newLength, h, message);
    } else {
      prepared.Update(buffer, changed, rest, Decimal(nonce), length, |message| + length);
    }
    ok := true;
  }

  lemma NoneYet(h: Hash, prefix: seq<int>, difficulty: nat, start: nat, step: nat)
    ensures NoWinnerBefore(h, prefix, difficulty, start, step, 0)
  {
  }

  lemma NotThisOne(h: Hash, prefix: seq<int>, difficulty: nat, start: nat, step: nat, k: nat)
    requires NoWinnerBefore(h, prefix, difficulty, start, step, k) && !Wins(h, prefix, difficulty, NonceAt(start, step, k))
    ensures NoWinnerBefore(h, prefix, difficulty, start, step, k + 1)
  {
    hide Wins, NonceAt;
  }

  method SearchRange(h: Hash, prefix: Context, difficulty: nat, start: nat, limit: nat, step: nat,
                     cancelRequested: nat -> bool, ghost message: seq<int>) returns (r: SearchResult)
    requires Sane(h) && prefix.Holds(h, message) && difficulty <= 256
    requires start < U64 && limit < U64 && 1 <= step < U64
    ensures exists k: nat :: Reported(h, message, difficulty, start, step, limit, cancelRequested, k, r)
  {
    hide Decimal, Fold, Padding, LengthBytes, Digest, HasLeadingZeroBits, NumberOf, Power10, PreparedBlocks.Laid, FirstTail, SecondTail, NoWinnerBefore;
    var buffer := new int[NONCE_BUFFER_LENGTH];
    var length := WriteDecimal(start, buffer);
    var prepared := new PreparedBlocks();
    prepared.Prepare(prefix, buffer, length, h, message);
    var nonce, attempts, digest := start, 0, [];
    var found, cancelled, nonceError := false, false, false;
    ghost var k: nat := 0;
    NoneYet(h, message, difficulty, start, step);
    while limit == 0 || attempts < limit
      invariant Ready(prefix, prepared, buffer, length, message, NonceAt(start, step, k))
      invariant prefix.Holds(h, message) && fresh(prepared) && fresh(prepared.first) && fresh(prepared.second) && fresh(buffer)
      invariant {prepared.first, prepared.second} !! {prefix.data, buffer} && buffer != prefix.data
      invariant attempts == k && (limit != 0 ==> k < limit) && nonce == NonceAt(start, step, k) % U64
      invariant NoWinnerBefore(h, message, difficulty, start, step, k) && !found && !cancelled && !nonceError
      decreases Power10(NONCE_BUFFER_LENGTH - 1) - NonceAt(start, step, k)
    {
      if attempts % CANCEL_CHECK_INTERVAL == 0 && cancelRequested(attempts) {
        cancelled := true;
        break;
      }
      digest := HashPrepared(h, prefix, prepared, message, Decimal(NonceAt(start, step, k)));
      attempts := attempts + 1;
      found := WordsHaveLeadingZeroBits(digest, difficulty);
      if found {
        k := attempts;
        break;
      }
      NotThisOne(h, message, difficulty, start, step, k);
      if limit != 0 && attempts >= limit {
        k := attempts;
        break;
      }
      nonce := (nonce + step) % U64;
      var ok, newLength := Advance(prefix, prepared, buffer, length, step, h, message, NonceAt(start, step, k));
      LongNumerals(NonceAt(start, step, k));
      LongNumerals(NonceAt(start, step, k + 1));
      StepWraps(NonceAt(start, step, k), step);
      k := attempts;
      if !ok {
        nonceError := true;
        break;
      }
      length := newLength;
    }
    r := SearchResult(found, cancelled, nonceError, nonce, attempts % U64, digest);
    assert Reported(h, message, difficulty, start, step, limit, cancelRequested, k, r);
  }

  lemma StepWraps(n: nat, step: nat)
    ensures (n % U64 + step) % U64 == (n + step) % U64
  {
    var q := n / U64;
    assert n + step == U64 * q + (n % U64 + step);
    A.AddMultiple(U64, q, n % U64 + step);
  }

  lemma {:induction false} NoncesGrow(start: nat, step: nat, a: nat, b: nat)
    requires a <= b
    ensures NonceAt(start, step, a) <= NonceAt(start, step, b)
    decreases b
  {
    if a < b {
      NoncesGrow(start, step, a, b - 1);
    }
  }

  // A found nonce is the one that won exactly when the winner fits 64 bits.
  lemma FoundNonceIsTheWinner(h: Hash, prefix: seq<int>, difficulty: nat, start: nat, step: nat, limit: nat,
                              cancelRequested: nat -> bool, k: nat, r: SearchResult)
    requires Reported(h, prefix, difficulty, start, step, limit, cancelRequested, k, r) && r.found
    ensures r.nonce == NonceAt(start, step, k - 1) <==> NonceAt(start, step, k - 1) < U64
  {
    hide Wins, Power10, NonceAt, NoWinnerBefore, NonceHash;
  }

  // As long as all the candidates fit 64 bits, a search never fails to write a nonce, and without
  // a winner or a cancellation it has tried them all.
  lemma SearchWithinSixtyFourBits(h: Hash, prefix: seq<int>, difficulty: nat, start: nat, step: nat, limit: nat,
                                  cancelRequested: nat -> bool, k: nat, r: SearchResult)
    requires Reported(h, prefix, difficulty, start, step, limit, cancelRequested, k, r)
    requires 0 < limit < U64 && NonceAt(start, step, limit - 1) < U64
    ensures !r.nonceError
    ensures r.found ==> Wins(h, prefix, difficulty, r.nonce) && r.attempts == k
    ensures !r.found && !r.cancelled ==> NoWinnerBefore(h, prefix, difficulty, start, step, limit)
  {
    hide Wins, Power10, NonceAt, NoWinnerBefore, NonceHash;
    NoncesGrow(start, step, if k < limit then k else limit - 1, limit - 1);
    NoncesGrow(start, step, if k >= 1 then k - 1 else 0, limit - 1);
    TenToTheTwenty();
    Power10Grows(20, NONCE_BUFFER_LENGTH - 1);
  }
}

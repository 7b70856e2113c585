/** The kernel for short messages: the one block that is left is packed into sixteen words once, and
    for every nonce only the changed digits are written into the words. */
module SingleBlock {
  import A = Arithmetic
  import opened Base
  import opened Decimals
  import opened Sha256Blocks
  import opened ProofOfWork
  import opened GpuSearch

  // ---- Bytes in words ---------------------------------------------------------------------

  function Scale(k: nat): nat
    requires k < 4
  {
    if k == 0 then 0x100_0000 else if k == 1 then 0x1_0000 else if k == 2 then 0x100 else 1
  }

  // The k-th byte of a word, the most significant first.
  function ByteOf(word: int, k: nat): int
    requires k < 4
  {
    word / Scale(k) % 256
  }

  function WordOf(a: int, b: int, c: int, d: int): int {
    0x100_0000 * a + 0x1_0000 * b + 0x100 * c + d
  }

  predicate IsByte(b: int) {
    0 <= b < 256
  }

  predicate AreBytes(s: seq<int>) {
    forall i :: 0 <= i < |s| ==> IsByte(s[i])
  }

  function BytesOf(words: seq<int>): (s: seq<int>)
    ensures |s| == 4 * |words|
  {
    seq(4 * |words|, i requires 0 <= i < 4 * |words| => ByteOf(words[i / 4], i % 4))
  }

  function Packed(block: seq<int>): (words: seq<int>)
    requires |block| == 64
    ensures |words| == 16
  {
    seq(16, i requires 0 <= i < 16 => WordOf(block[4 * i], block[4 * i + 1], block[4 * i + 2], block[4 * i + 3]))
  }

  lemma BytesOfWord(a: int, b: int, c: int, d: int)
    requires IsByte(a) && IsByte(b) && IsByte(c) && IsByte(d)
    ensures var w := WordOf(a, b, c, d);
            0 <= w < WORD && ByteOf(w, 0) == a && ByteOf(w, 1) == b && ByteOf(w, 2) == c && ByteOf(w, 3) == d
  {
    Shifted(a, 0x1_0000 * b + 0x100 * c + d, 0x100_0000, 0, a);
    Shifted(0x100 * a + b, 0x100 * c + d, 0x1_0000, a, b);
    Shifted(0x1_0000 * a + 0x100 * b + c, d, 0x100, 0x100 * a + b, c);
    Shifted(0x100_0000 * a + 0x1_0000 * b + 0x100 * c + d, 0, 1, 0x1_0000 * a + 0x100 * b + c, d);
    assert IsByte(a) && IsByte(b) && IsByte(c) && IsByte(d);
  }

  lemma Shifted(q: int, r: int, scale: nat, high: int, byte: int)
    requires 0 <= r < scale && q == 0x100 * high + byte && IsByte(byte)
    ensures (scale * q + r) / scale == q && (scale * q + r) / scale % 0x100 == byte
  {
    A.DividesOnce(scale, q, r);
    A.DividesOnce(0x100, high, byte);
  }

  lemma WordOfBytes(w: int)
    requires 0 <= w < WORD
    ensures w == WordOf(ByteOf(w, 0), ByteOf(w, 1), ByteOf(w, 2), ByteOf(w, 3))
    ensures forall k :: 0 <= k < 4 ==> IsByte(ByteOf(w, k))
  {
    hide ByteOf;
    var x, d := w / 0x100, w % 0x100;
    var y, c := x / 0x100, x % 0x100;
    var a, b := y / 0x100, y % 0x100;
    assert w == 0x100 * x + d && x == 0x100 * y + c && y == 0x100 * a + b;
    BytesOfWord(a, b, c, d);
  }

  // Packing a block loses nothing.
  lemma PackedKeepsBytes(block: seq<int>)
    requires |block| == 64 && AreBytes(block)
    ensures AreWords(Packed(block)) && BytesOf(Packed(block)) == block
  {
    hide ByteOf, WordOf;
    forall i | 0 <= i < 16
      ensures 0 <= Packed(block)[i] < WORD
    {
      BytesOfWord(block[4 * i], block[4 * i + 1], block[4 * i + 2], block[4 * i + 3]);
    }
    forall i | 0 <= i < 64
      ensures BytesOf(Packed(block))[i] == block[i]
    {
      var j := i / 4;
      BytesOfWord(block[4 * j], block[4 * j + 1], block[4 * j + 2], block[4 * j + 3]);
      assert i == 4 * j + i % 4;
    }
  }

  // ---- Writing into words -----------------------------------------------------------------

  // Clears a byte of the word and puts another one in its place.
  function WithByte(w: int, k: nat, value: int): int
    requires k < 4
  {
    w - ByteOf(w, k) * Scale(k) + value * Scale(k)
  }

  lemma OnlyOneByteChanges(w: int, k: nat, value: int)
    requires 0 <= w < WORD && k < 4 && IsByte(value)
    ensures 0 <= WithByte(w, k, value) < WORD
    ensures forall j :: 0 <= j < 4 ==> ByteOf(WithByte(w, k, value), j) == if j == k then value else ByteOf(w, j)
  {
    hide ByteOf;
    WordOfBytes(w);
    var a, b, c, d := ByteOf(w, 0), ByteOf(w, 1), ByteOf(w, 2), ByteOf(w, 3);
    var a', b' := if k == 0 then value else a, if k == 1 then value else b;
    var c', d' := if k == 2 then value else c, if k == 3 then value else d;
    BytesOfWord(a', b', c', d');
    assert WithByte(w, k, value) == WordOf(a', b', c', d');
  }

  method WriteWordByte(words: array<int>, offset: nat, value: int)
    requires words.Length == 16 && offset < 64 && AreWords(words[..]) && IsByte(value)
    modifies words
    ensures AreWords(words[..]) && BytesOf(words[..]) == old(BytesOf(words[..]))[offset := value]
  {
    hide ByteOf, WithByte;
    ghost var before := words[..];
    var i, k := offset / 4, offset % 4;
    OnlyOneByteChanges(words[i], k, value);
    words[i] := WithByte(words[i], k, value);
    assert words[..] == before[i := words[i]];
    assert offset == 4 * i + k;
    forall j | 0 <= j < 64
      ensures BytesOf(words[..])[j] == BytesOf(before)[offset := value][j]
    {
      assert j == 4 * (j / 4) + j % 4;
    }
  }

  // The bytes of the buffer from an index on go to the words, each to its place after the rest.
  method WriteDigits(words: array<int>, offset: nat, buffer: array<int>, from: nat, digits: nat)
    requires words.Length == 16 && words != buffer && from <= digits <= buffer.Length && offset + digits <= 64
    requires AreWords(words[..]) && AreBytes(buffer[from..digits])
    modifies words
    ensures AreWords(words[..]) && BytesOf(words[..]) == Placed(old(BytesOf(words[..])), offset + from, buffer[from..digits])
  {
    hide ByteOf, BytesOf, AreWords;
    ghost var before := BytesOf(words[..]);
    for index := from to digits
      invariant AreWords(words[..]) && BytesOf(words[..]) == Placed(before, offset + from, buffer[from..index])
    {
      assert buffer[from..digits][index - from] == buffer[index];
      assert buffer[from..index + 1] == buffer[from..index] + [buffer[index]];
      WriteWordByte(words, offset + index, buffer[index]);
    }
  }

  // ---- The block --------------------------------------------------------------------------

  // The words of the rest of the prefix, room for the digits, and the padding, when they fit one block.
  method PrepareSingleBlockWords(prefix: Context, digits: nat, ghost h: Hash, ghost message: seq<int>) returns (r: Option<seq<int>>)
    requires prefix.Holds(h, message) && AreBytes(message) && digits < NONCE_BUFFER_LENGTH
    ensures r.None? <==> prefix.dataLength + digits >= 56
    ensures r.Some? ==>
              && |r.value| == 16 && AreWords(r.value)
              && BytesOf(r.value) == prefix.data[..prefix.dataLength] + Zeros(digits) + Padding(|message| + digits)
  {
    hide LengthBytes, Fold, Padding, Packed, BytesOf, AreWords;
    var suffix := prefix.dataLength + digits;
    if suffix >= 56 {
      return None;
    }
    ghost var rest, total := prefix.data[..prefix.dataLength], |message| + digits;
    var block := new int[64];
    Clear(block);
    Copy(block, 0, prefix.data, 0, prefix.dataLength);
    assert block[..] == rest + Zeros(digits) + Zeros(64 - suffix);
    block[suffix] := 0x80;
    assert block[..] == (rest + Zeros(digits) + Zeros(64 - |rest + Zeros(digits)|))[|rest + Zeros(digits)| := 0x80];
    LengthInBits(prefix.bitLength, |message| - prefix.dataLength, suffix);
    WriteLength(block, (prefix.bitLength + 8 * suffix) % U64);
    RestModulo(|message|, |rest|, digits);
    EndOfBlock(rest + Zeros(digits), total);
    RestOfBytes(message, |rest|);
    PaddingIsBytes(total);
    assert AreBytes(block[..]);
    PackedKeepsBytes(block[..]);
    return Some(Packed(block[..]));
  }

  lemma RestOfBytes(message: seq<int>, n: nat)
    requires AreBytes(message) && n <= |message|
    ensures AreBytes(message[|message| - n..])
  {
  }

  lemma PaddingIsBytes(n: nat)
    ensures AreBytes(Padding(n))
  {
  }

  lemma DigitsAreBytes(n: nat)
    ensures AreBytes(Decimal(n))
  {
    DecimalDenotes(n);
  }

  // When rest, digits and padding are one block, one compression completes the hash.
  lemma OneBlockIsTheHash(h: Hash, message: seq<int>, n: nat, digits: seq<int>)
    requires n <= |message| && (|message| - n) % 64 == 0 && n + |digits| < 56
    ensures var rest, whole := message[|message| - n..], message[..|message| - n];
            Digest(h, message + digits) == h.compress(Fold(h, h.initial, whole), rest + digits + Padding(|message| + |digits|))
  {
    hide Digest, Fold, LengthBytes;
    var rest, whole := message[|message| - n..], message[..|message| - n];
    assert message == whole + rest;
    DigestByBlocks(h, whole, rest, digits);
    var block := rest + digits + Padding(|message| + |digits|);
    assert (n + |digits| + |Padding(|message| + |digits|)|) % 64 == 0;
    FoldOneOrTwo(h, Fold(h, h.initial, whole), block, block);
  }

  // Writing the digits from the changed one on turns the block of the old digits into that of the new.
  lemma PatchedBlock(rest: seq<int>, before: seq<int>, now: seq<int>, changed: nat, padding: seq<int>)
    requires |now| == |before| && changed <= |now| && now[..changed] == before[..changed]
    ensures Placed(rest + before + padding, |rest| + changed, now[changed..]) == rest + now + padding
  {
    assert before == before[..changed] + before[changed..] && now == now[..changed] + now[changed..];
  }

  // ---- One thread -------------------------------------------------------------------------

  method HashWords(h: Hash, prefix: Context, words: array<int>, ghost message: seq<int>, ghost digits: seq<int>) returns (digest: seq<int>)
    requires prefix.Holds(h, message) && prefix.dataLength + |digits| < 56
    requires BytesOf(words[..]) == prefix.data[..prefix.dataLength] + digits + Padding(|message| + |digits|)
    ensures digest == Digest(h, message + digits)
  {
    hide Fold, Digest, Padding, BytesOf;
    OneBlockIsTheHash(h, message, prefix.dataLength, digits);
    digest := h.compress(prefix.state, BytesOf(words[..]));
  }

  // Moves buffer and words on to the next nonce of the same length.
  method NextWords(words: array<int>, offset: nat, buffer: array<int>, digits: nat, ghost nonce: nat, ghost rest: seq<int>, ghost padding: seq<int>)
    requires words.Length == 16 && words != buffer && buffer.Length == NONCE_BUFFER_LENGTH && AreWords(words[..])
    requires 1 <= digits <= MAX_FIXED_DIGIT_LENGTH && offset == |rest| && offset + digits <= 64
    requires buffer[..digits] == Decimal(nonce) && |Decimal(nonce + 1)| == digits
    requires BytesOf(words[..]) == rest + Decimal(nonce) + padding
    modifies words, buffer
    ensures AreWords(words[..]) && buffer[..digits] == Decimal(nonce + 1) && BytesOf(words[..]) == rest + Decimal(nonce + 1) + padding
  {
    hide Decimal, BytesOf, AreWords, Placed, IsByte;
    ghost var before, held := buffer[..digits], words[..];
    var changed := IncrementFixedDigits(buffer, digits, nonce);
    assert words[..] == held && buffer[..digits][..changed] == buffer[..changed] == before[..changed];
    DigitsAreBytes(nonce + 1);
    RestOfBytes(buffer[..digits], digits - changed);
    assert buffer[changed..digits] == buffer[..digits][changed..];
    PatchedBlock(rest, before, buffer[..digits], changed, padding);
    WriteDigits(words, offset, buffer, changed, digits);
  }

  // The first winner among the candidates of one thread; the same as on patched blocks.
  method ScanSingleBlock(h: Hash, prefix: Context, difficulty: nat, base: seq<int>, start: nat, first: nat, limit: nat, digits: nat, ghost message: seq<int>)
    returns (winner: Option<nat>)
    requires Sane(h) && prefix.Holds(h, message) && difficulty <= 256 && first < limit
    requires 1 <= digits <= MAX_FIXED_DIGIT_LENGTH && forall n: nat :: start + first <= n < start + limit ==> |Decimal(n)| == digits
    requires prefix.dataLength + digits < 56 && |base| == 16 && AreWords(base)
    requires BytesOf(base) == prefix.data[..prefix.dataLength] + Zeros(digits) + Padding(|message| + digits)
    ensures match winner
            case None => NoneWins(h, message, difficulty, start, first, limit)
            case Some(i) => first <= i < limit && Wins(h, message, difficulty, start + i) && NoneWins(h, message, difficulty, start, first, i)
  {
    hide Decimal, Fold, Digest, HasLeadingZeroBits, NumberOf, Padding, BytesOf, AreWords, Placed, Zeros, IsByte;
    var buffer, words := new int[NONCE_BUFFER_LENGTH], new int[16](i requires 0 <= i < 16 => base[i]);
    assert words[..] == base;
    var n := prefix.dataLength;
    ghost var rest, padding := prefix.data[..n], Padding(|message| + digits);
    WriteFixedDigits(start + first, digits, buffer);
    DigitsAreBytes(start + first);
    WriteDigits(words, n, buffer, 0, digits);
    PatchedBlock(rest, Zeros(digits), buffer[..digits], 0, padding);
    var candidate := first;
    while candidate < limit
      invariant first <= candidate <= limit && NoneWins(h, message, difficulty, start, first, candidate)
      invariant candidate < limit ==> buffer[..digits] == Decimal(start + candidate) && BytesOf(words[..]) == rest + buffer[..digits] + padding
      invariant AreWords(words[..]) && prefix.Holds(h, message) && rest == prefix.data[..n] && n == prefix.dataLength
      invariant fresh(words) && fresh(buffer) && words != buffer
    {
      var digest := HashWords(h, prefix, words, message, buffer[..digits]);
      var wins := WordsHaveLeadingZeroBits(digest, difficulty);
      if wins {
        return Some(candidate);
      }
      if candidate + 1 >= limit {
        return None;
      }
      NextWords(words, n, buffer, digits, start + candidate, rest, padding);
      candidate := candidate + 1;
    }
    winner := None;
  }
}

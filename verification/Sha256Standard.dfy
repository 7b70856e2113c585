/** What the hashing code hands to the compression function, in the words of FIPS 180-4: the padded
    message of section 5.1.1, cut into blocks from the front, its length read as one number. */
module Sha256Standard {
  import A = Arithmetic
  import opened Base
  import opened Decimals
  import opened Sha256Blocks
  import opened ProofOfWork
  import opened SingleBlock

  // ---- Bytes as one number ----------------------------------------------------------------

  // The number that bytes denote, the most significant first.
  function BigEndian(bytes: seq<int>): int {
    if bytes == [] then 0 else 256 * BigEndian(bytes[..|bytes| - 1]) + bytes[|bytes| - 1]
  }

  lemma BigEndianMore(bytes: seq<int>, b: int)
    ensures BigEndian(bytes + [b]) == 256 * BigEndian(bytes) + b
  {
    assert (bytes + [b])[..|bytes|] == bytes;
  }

  // One byte more of n: the bytes above it denote n / 256 modulo m.
  lemma NextByte(n: nat, m: nat)
    requires m >= 1
    ensures 256 * (n / 256 % m) + n % 256 == n % (256 * m)
  {
    var q, r := n / 256 / m, n / 256 % m;
    assert n / 256 == m * q + r;
    var low := 256 * r + n % 256;
    assert n == 256 * (m * q + r) + n % 256 == 256 * m * q + low;
    A.Multiples(256, r, m);
    A.DividesOnce(256 * m, q, low);
  }

  lemma OneByteMore(bytes: seq<int>, bits: nat, d: nat, m: nat)
    requires d >= 1 && m >= 1 && BigEndian(bytes) == bits / (256 * d) % m
    ensures BigEndian(bytes + [bits / d % 256]) == bits / d % (256 * m)
  {
    BigEndianMore(bytes, bits / d % 256);
    DivideTwice(bits, d);
    NextByte(bits / d, m);
  }

  lemma DivideTwice(n: nat, d: nat)
    requires d >= 1
    ensures n / (256 * d) == n / d / 256
  {
    var q, r := n / d, n % d;
    var a, b := q / 256, q % 256;
    assert n == d * (256 * a + b) + r == 256 * d * a + (d * b + r);
    A.Multiples(d, b, 256);
    A.DividesOnce(256 * d, a, d * b + r);
  }

  // The eight bytes are bytes, and read as one number they are the length modulo 2^64.
  lemma LengthIsRead(bits: nat)
    ensures BigEndian(LengthBytes(bits)) == bits % 0x1_0000_0000_0000_0000
    ensures forall i :: 0 <= i < 8 ==> 0 <= LengthBytes(bits)[i] < 256
  {
    var s := LengthBytes(bits);
    FirstFour(bits);
    assert s[..4] + [s[4]] == s[..5] && s[..5] + [s[5]] == s[..6] && s[..6] + [s[6]] == s[..7] && s[..7] + [s[7]] == s;
    OneByteMore(s[..4], bits, 0x100_0000, 0x1_0000_0000);
    OneByteMore(s[..5], bits, 0x1_0000, 0x100_0000_0000);
    OneByteMore(s[..6], bits, 0x100, 0x1_0000_0000_0000);
    OneByteMore(s[..7], bits, 1, 0x100_0000_0000_0000);
  }

  lemma FirstFour(bits: nat)
    ensures BigEndian(LengthBytes(bits)[..4]) == bits / 0x1_0000_0000 % 0x1_0000_0000
  {
    var s := LengthBytes(bits);
    assert s[..0] == [] && [] + [s[0]] == s[..1] && s[..1] + [s[1]] == s[..2] && s[..2] + [s[2]] == s[..3] && s[..3] + [s[3]] == s[..4];
    OneByteMore([], bits, 0x100_0000_0000_0000, 1);
    OneByteMore(s[..1], bits, 0x1_0000_0000_0000, 0x100);
    OneByteMore(s[..2], bits, 0x100_0000_0000, 0x1_0000);
    OneByteMore(s[..3], bits, 0x1_0000_0000, 0x100_0000);
  }

  lemma {:induction false} BytesAreTheirNumber(a: seq<int>, b: seq<int>)
    requires |a| == |b| && AreBytes(a) && AreBytes(b) && BigEndian(a) == BigEndian(b)
    ensures a == b
  {
    if a != [] {
      var n := |a| - 1;
      A.SameDivision(256, BigEndian(a[..n]), a[n], BigEndian(b[..n]), b[n]);
      BytesAreTheirNumber(a[..n], b[..n]);
      assert a == a[..n] + [a[n]] && b == b[..n] + [b[n]];
    }
  }

  // ---- The padded message -----------------------------------------------------------------

  // The message, the byte 0x80, as few zero bytes as fill the last block, and in its last eight
  // bytes the length of the message in bits.
  ghost predicate IsPadded(message: seq<int>, padded: seq<int>) {
    var n, end := |message|, |padded| - 8;
    && n + 9 <= |padded| < n + 9 + 64 && |padded| % 64 == 0
    && padded[..n] == message && padded[n] == 0x80 && (forall i :: n < i < end ==> padded[i] == 0)
    && AreBytes(padded[end..]) && BigEndian(padded[end..]) == 8 * n % 0x1_0000_0000_0000_0000
  }

  lemma PaddingPads(message: seq<int>)
    ensures IsPadded(message, message + Padding(|message|))
  {
    hide LengthBytes;
    var n := |message|;
    var padded := message + Padding(n);
    PaddingFillsBlocks(n, 0);
    LengthIsRead(8 * n);
    assert padded[..n] == message && padded[|padded| - 8..] == LengthBytes(8 * n);
    assert forall i :: n < i < |padded| - 8 ==> padded[i] == Zeros(ZeroCount(n))[i - n - 1];
  }

  // There is only one such message.
  lemma PaddedExactly(message: seq<int>, padded: seq<int>)
    ensures IsPadded(message, padded) <==> padded == message + Padding(|message|)
  {
    hide Padding, BigEndian, AreBytes;
    PaddingPads(message);
    if IsPadded(message, padded) {
      OnlyOnePadded(message, padded, message + Padding(|message|));
    }
  }

  lemma OnlyOnePadded(message: seq<int>, p: seq<int>, q: seq<int>)
    requires IsPadded(message, p) && IsPadded(message, q)
    ensures p == q
  {
    hide BigEndian, AreBytes;
    A.SameRemainder(|p|, |q|, 64);
    assert |p| == |q| by {
      var i, j := |p| / 64, |q| / 64;
      assert |p| == 64 * i && |q| == 64 * j;
    }
    var end := |p| - 8;
    BytesAreTheirNumber(p[end..], q[end..]);
    assert p == p[..end] + p[end..] && q == q[..end] + q[end..];
    assert forall i :: 0 <= i < |message| ==> p[i] == p[..|message|][i] && q[i] == q[..|message|][i];
    assert forall i :: 0 <= i < end ==> p[i] == q[i];
  }

  // ---- Block by block ---------------------------------------------------------------------

  // Section 6.2.2: the blocks are compressed one after the other, from the front.
  function Hashed(h: Hash, state: seq<int>, data: seq<int>): seq<int>
    decreases |data|
  {
    if |data| < 64 then state else Hashed(h, h.compress(state, data[..64]), data[64..])
  }

  lemma {:induction false} FoldIsHashed(h: Hash, state: seq<int>, data: seq<int>)
    requires |data| % 64 == 0
    ensures Fold(h, state, data) == Hashed(h, state, data)
    decreases |data|
  {
    if |data| >= 64 {
      var first, rest := data[..64], data[64..];
      FoldIsHashed(h, h.compress(state, first), rest);
      FoldOneOrTwo(h, state, first, first);
      FoldAppend(h, state, first, rest);
      assert first + rest == data;
    }
  }

  // The digest of a message is that of its padded form.
  lemma DigestsPadded(h: Hash, message: seq<int>, padded: seq<int>)
    requires IsPadded(message, padded)
    ensures Digest(h, message) == Hashed(h, h.initial, padded)
  {
    hide Fold, Hashed, Padding, BigEndian;
    PaddedExactly(message, padded);
    FoldIsHashed(h, h.initial, padded);
  }

  // ---- What is compressed -----------------------------------------------------------------

  // Behind the whole blocks of the prefix, the prepared blocks are the end of the padded message.
  lemma PreparedBlocksEndThePadded(prepared: PreparedBlocks, whole: seq<int>, rest: seq<int>, digits: seq<int>)
    requires |whole| % 64 == 0 && prepared.Laid(rest, digits, |whole| + |rest| + |digits|)
    ensures IsPadded(whole + rest + digits, whole + prepared.Blocks())
  {
    hide Padding, IsPadded, FirstTail, SecondTail;
    prepared.LaidBlocks(rest, digits, |whole| + |rest| + |digits|);
    var message := whole + rest + digits;
    PaddedExactly(message, message + Padding(|message|));
    assert whole + prepared.Blocks() == message + Padding(|message|);
  }

  // So is the single block that is packed into words; each word is its four bytes read as one number.
  lemma WordsEndThePadded(words: seq<int>, whole: seq<int>, rest: seq<int>, digits: seq<int>)
    requires AreWords(words) && |words| == 16
    requires BytesOf(words) == rest + digits + Padding(|whole| + |rest| + |digits|)
    ensures IsPadded(whole + rest + digits, whole + BytesOf(words))
    ensures forall i :: 0 <= i < 16 ==> words[i] == BigEndian(BytesOf(words)[4 * i..4 * i + 4])
  {
    hide Padding, IsPadded, BigEndian, AreWords, BytesOf;
    var message := whole + rest + digits;
    PaddedExactly(message, message + Padding(|message|));
    assert whole + BytesOf(words) == message + Padding(|message|);
    forall i | 0 <= i < 16
      ensures words[i] == BigEndian(BytesOf(words)[4 * i..4 * i + 4])
    {
      WordIsItsBytes(words, i);
    }
  }

  lemma WordIsItsBytes(words: seq<int>, i: nat)
    requires AreWords(words) && i < |words|
    ensures words[i] == BigEndian(BytesOf(words)[4 * i..4 * i + 4])
  {
    hide ByteOf;
    var w, s := words[i], BytesOf(words)[4 * i..4 * i + 4];
    WordOfBytes(w);
    assert forall k :: 0 <= k < 4 ==> s[k] == ByteOf(w, k);
    assert s[..0] == [] && [] + [s[0]] == s[..1] && s[..1] + [s[1]] == s[..2] && s[..2] + [s[2]] == s[..3] && s[..3] + [s[3]] == s;
    BigEndianMore([], s[0]);
    BigEndianMore(s[..1], s[1]);
    BigEndianMore(s[..2], s[2]);
    BigEndianMore(s[..3], s[3]);
  }
}

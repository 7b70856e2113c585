/** Hashing a prefix once and only the last blocks for every nonce: the padding of the standard, the
    streaming context, and the prepared blocks that are patched in place. */
module Sha256Blocks {
  import A = Arithmetic
  import opened Decimals

  // The compression function of FIPS 180-4 and its initial value stay abstract.
  datatype Hash = Hash(initial: seq<int>, compress: (seq<int>, seq<int>) -> seq<int>)

  // ---- Padding: section 5.1.1 of FIPS 180-4 -----------------------------------------------

  function Zeros(n: nat): (s: seq<int>)
    ensures |s| == n && forall i :: 0 <= i < n ==> s[i] == 0
  {
    seq(n, _ => 0)
  }

  // A length in bits as eight bytes, most significant first.
  function LengthBytes(bits: nat): (s: seq<int>)
    ensures |s| == 8
  {
    [bits / 0x1_00_0000_0000_0000 % 256, bits / 0x1_0000_0000_0000 % 256, bits / 0x1_00_0000_0000 % 256, bits / 0x1_0000_0000 % 256,
     bits / 0x1_00_0000 % 256, bits / 0x1_0000 % 256, bits / 0x1_00 % 256, bits % 256]
  }

  function ZeroCount(n: nat): nat {
    (119 - n % 64) % 64
  }

  // What follows a message of n bytes.
  function Padding(n: nat): (s: seq<int>)
    ensures |s| == 9 + ZeroCount(n)
  {
    [0x80] + Zeros(ZeroCount(n)) + LengthBytes(8 * n)
  }

  // The number of zeros is the least that leaves room for the length at the end of a block.
  lemma PaddingFillsBlocks(n: nat, zeros: nat)
    ensures (n + |Padding(n)|) % 64 == 0
    ensures (n + 1 + zeros) % 64 == 56 ==> ZeroCount(n) <= zeros
  {
    hide LengthBytes, Zeros;
    var q, r := n / 64, n % 64;
    assert n == 64 * q + r;
    var blocks := (r + 9 + ZeroCount(n)) / 64;
    assert r + 9 + ZeroCount(n) == 64 * blocks;
    assert n + |Padding(n)| == 64 * (q + blocks);
  }

  // ---- Digest: section 6.2.2 --------------------------------------------------------------

  function Fold(h: Hash, state: seq<int>, data: seq<int>): seq<int> {
    if |data| < 64 then state else h.compress(Fold(h, state, data[..|data| - 64]), data[|data| - 64..])
  }

  function Digest(h: Hash, message: seq<int>): seq<int> {
    Fold(h, h.initial, message + Padding(|message|))
  }

  lemma {:induction false} FoldAppend(h: Hash, state: seq<int>, a: seq<int>, b: seq<int>)
    requires |a| % 64 == 0 && |b| % 64 == 0
    ensures Fold(h, state, a + b) == Fold(h, Fold(h, state, a), b)
  {
    if b == [] {
      assert a + b == a;
    } else {
      var front := b[..|b| - 64];
      FoldAppend(h, state, a, front);
      assert (a + b)[..|a + b| - 64] == a + front && (a + b)[|a + b| - 64..] == b[|b| - 64..];
    }
  }

  // ---- The streaming context --------------------------------------------------------------

  class Context {
    const data: array<int>
    var state: seq<int>
    var bitLength: nat
    var dataLength: nat

    ghost predicate Valid()
      reads this
    {
      data.Length == 64 && dataLength < 64
    }

    // The whole blocks of the message are folded in, the rest is held.
    ghost predicate Holds(h: Hash, message: seq<int>)
      reads this, data
    {
      && Valid() && dataLength <= |message| && (|message| - dataLength) % 64 == 0
      && state == Fold(h, h.initial, message[..|message| - dataLength])
      && data[..dataLength] == message[|message| - dataLength..]
      && bitLength == 8 * (|message| - dataLength) % U64
    }

    constructor (h: Hash)
      ensures Holds(h, []) && fresh(data)
    {
      data := new int[64];
      state, bitLength, dataLength := h.initial, 0, 0;
    }

    constructor Copy(other: Context, ghost h: Hash, ghost message: seq<int>)
      requires other.Holds(h, message)
      ensures Holds(h, message) && fresh(data)
    {
      data := new int[64](i requires 0 <= i < 64 reads other, other.data => other.data[i]);
      state, bitLength, dataLength := other.state, other.bitLength, other.dataLength;
    }

    method Update(h: Hash, bytes: seq<int>, ghost message: seq<int>)
      requires Holds(h, message)
      modifies this, data
      ensures Holds(h, message + bytes)
    {
      assert message + bytes[..0] == message;
      for i := 0 to |bytes|
        invariant Holds(h, message + bytes[..i])
      {
        ghost var before := message + bytes[..i];
        assert message + bytes[..i + 1] == before + [bytes[i]];
        Absorb(h, bytes[i], before);
      }
      assert bytes[..|bytes|] == bytes;
    }

    method Absorb(h: Hash, byte: int, ghost message: seq<int>)
      requires Holds(h, message)
      modifies this, data
      ensures Holds(h, message + [byte])
    {
      hide Fold;
      ghost var whole, held := message[..|message| - dataLength], data[..dataLength];
      assert message == whole + held && message + [byte] == whole + held + [byte];
      data[dataLength] := byte;
      dataLength := dataLength + 1;
      assert data[..dataLength] == held + [byte];
      Regroup(whole, held, byte);
      if dataLength == 64 {
        assert data[..] == held + [byte];
        BlockFolds(h, whole, data[..]);
        NextBlockLength(|whole|);
        state := h.compress(state, data[..]);
        bitLength := (bitLength + 512) % U64;
        dataLength := 0;
      }
    }
  }

  lemma Regroup(whole: seq<int>, held: seq<int>, byte: int)
    ensures var more := whole + held + [byte];
            && more[..|more| - |held| - 1] == whole && more[|more| - |held| - 1..] == held + [byte]
            && more == whole + (held + [byte]) && more[..|more| - 0] == more && more[|more|..] == []
  {
  }

  lemma BlockFolds(h: Hash, whole: seq<int>, block: seq<int>)
    requires |whole| % 64 == 0 && |block| == 64
    ensures Fold(h, h.initial, whole + block) == h.compress(Fold(h, h.initial, whole), block)
    ensures (|whole| + 64) % 64 == 0
  {
    assert (whole + block)[..|whole|] == whole && (whole + block)[|whole|..] == block;
  }

  lemma NextBlockLength(n: nat)
    ensures (8 * n % U64 + 512) % U64 == 8 * (n + 64) % U64
  {
    var q := 8 * n / U64;
    assert 8 * n == U64 * q + 8 * n % U64;
    var m := 8 * n % U64 + 512;
    assert 8 * (n + 64) == U64 * q + m;
    A.AddMultiple(U64, q, m);
  }

  // ---- Prepared blocks --------------------------------------------------------------------

  // How much of a nonce of n digits fits in the first block after a rest of the given length.
  function FirstPart(rest: nat, n: nat): nat
    requires rest < 64
  {
    if n > 64 - rest then 64 - rest else n
  }

  lemma PaddingLength(used: nat, total: nat)
    requires used < 64 + NONCE_BUFFER_LENGTH && total % 64 == used % 64
    ensures |Padding(total)| == if used < 56 then 64 - used else 128 - used
  {
    hide LengthBytes, Zeros;
    if used >= 64 {
      assert used % 64 == used - 64;
    }
  }

  // What follows the digits in the first and in the second block.
  function FirstTail(rest: nat, n: nat, total: nat): (t: seq<int>)
    requires rest < 64 && n < NONCE_BUFFER_LENGTH && total % 64 == (rest + n) % 64
    ensures |t| == 64 - rest - FirstPart(rest, n)
  {
    PaddingLength(rest + n, total);
    if rest + n > 64 then [] else if rest + n < 56 then Padding(total) else Padding(total)[..64 - rest - n]
  }

  function SecondTail(rest: nat, n: nat, total: nat): (t: seq<int>)
    requires rest < 64 && n < NONCE_BUFFER_LENGTH && total % 64 == (rest + n) % 64
    ensures |t| == 64 - n + FirstPart(rest, n)
  {
    PaddingLength(rest + n, total);
    if rest + n > 64 then Padding(total) else if rest + n < 56 then Zeros(64) else Padding(total)[64 - rest - n..]
  }

  lemma TailCases(rest: nat, n: nat, total: nat)
    requires rest < 64 && n < NONCE_BUFFER_LENGTH && total % 64 == (rest + n) % 64
    ensures rest + n > 64 ==> FirstTail(rest, n, total) == [] && SecondTail(rest, n, total) == Padding(total)
    ensures rest + n < 56 ==> FirstTail(rest, n, total) == Padding(total) && SecondTail(rest, n, total) == Zeros(64)
    ensures 56 <= rest + n <= 64 ==>
              && |Padding(total)| >= 64 - rest - n
              && FirstTail(rest, n, total) == Padding(total)[..64 - rest - n] && SecondTail(rest, n, total) == Padding(total)[64 - rest - n..]
  {
  }

  lemma RestModulo(length: nat, rest: nat, n: nat)
    requires rest <= length && (length - rest) % 64 == 0
    ensures (length + n) % 64 == (rest + n) % 64
  {
    var q := (length - rest) / 64;
    assert length + n == 64 * q + (rest + n);
    A.AddMultiple(64, q, rest + n);
  }

  // The bytes of s from an offset on are replaced by those of piece.
  function Placed(s: seq<int>, offset: nat, piece: seq<int>): (r: seq<int>)
    requires offset + |piece| <= |s|
    ensures |r| == |s|
  {
    s[..offset] + piece + s[offset + |piece|..]
  }

  method Copy(target: array<int>, offset: nat, source: array<int>, start: nat, count: nat)
    requires target != source && offset + count <= target.Length && start + count <= source.Length
    modifies target
    ensures target[..] == Placed(old(target[..]), offset, source[start..start + count])
  {
    for i := 0 to count
      invariant target[..offset] == old(target[..offset])
      invariant target[offset..offset + i] == source[start..start + i]
      invariant target[offset + i..] == old(target[offset + i..])
    {
      target[offset + i] := source[start + i];
    }
    assert target[..] == target[..offset] + target[offset..offset + count] + target[offset + count..];
  }

  method Clear(a: array<int>)
    modifies a
    ensures a[..] == Zeros(a.Length)
  {
    for i := 0 to a.Length
      invariant forall k :: 0 <= k < i ==> a[k] == 0
    {
      a[i] := 0;
    }
  }

  method WriteLength(block: array<int>, bits: nat)
    requires block.Length == 64
    modifies block
    ensures block[..] == Placed(old(block[..]), 56, LengthBytes(bits))
  {
    block[63] := bits % 256;
    block[62] := bits / 0x1_00 % 256;
    block[61] := bits / 0x1_0000 % 256;
    block[60] := bits / 0x1_00_0000 % 256;
    block[59] := bits / 0x1_0000_0000 % 256;
    block[58] := bits / 0x1_00_0000_0000 % 256;
    block[57] := bits / 0x1_0000_0000_0000 % 256;
    block[56] := bits / 0x1_00_0000_0000_0000 % 256;
  }

  // Only the low 64 bits of a length are written.
  lemma LengthIsModular(q: nat, r: nat)
    ensures LengthBytes(U64 * q + r) == LengthBytes(r)
  {
    Byte(0x1_00_0000_0000_0000, 0x1_00, q, r);
    Byte(0x1_0000_0000_0000, 0x1_0000, q, r);
    Byte(0x1_00_0000_0000, 0x1_00_0000, q, r);
    Byte(0x1_0000_0000, 0x1_0000_0000, q, r);
    Byte(0x1_00_0000, 0x1_00_0000_0000, q, r);
    Byte(0x1_0000, 0x1_0000_0000_0000, q, r);
    Byte(0x1_00, 0x1_00_0000_0000_0000, q, r);
    Byte(1, U64, q, r);
  }

  lemma Byte(d: nat, e: nat, q: nat, r: nat)
    requires d > 0 && d * e == U64 && e % 256 == 0
    ensures (U64 * q + r) / d % 256 == r / d % 256
  {
    var f := e / 256;
    assert U64 * q + r == d * (e * q + r / d) + r % d;
    A.DividesOnce(d, e * q + r / d, r % d);
    assert e * q + r / d == 256 * (f * q) + r / d;
    A.AddMultiple(256, f * q, r / d);
  }

  // A head, the marker, zeros and the length fill one block.
  lemma EndOfBlock(head: seq<int>, total: nat)
    requires |head| < 56 && total % 64 == |head|
    ensures Placed((head + Zeros(64 - |head|))[|head| := 0x80], 56, LengthBytes(8 * total)) == head + Padding(total)
  {
    hide LengthBytes;
    assert ZeroCount(total) == 55 - |head|;
  }

  // A head that leaves no room for the length is completed by a second block.
  lemma EndOfTwoBlocks(head: seq<int>, total: nat)
    requires 56 <= |head| < 64 && total % 64 == |head|
    ensures (head + Zeros(64 - |head|))[|head| := 0x80] == head + Padding(total)[..64 - |head|]
    ensures Placed(Zeros(64), 56, LengthBytes(8 * total)) == Padding(total)[64 - |head|..]
  {
    hide LengthBytes;
    assert ZeroCount(total) == 119 - |head|;
  }

  lemma LengthInBits(bitLength: nat, whole: nat, more: nat)
    requires bitLength == 8 * whole % U64
    ensures LengthBytes((bitLength + 8 * more) % U64) == LengthBytes(8 * (whole + more))
  {
    hide LengthBytes;
    var bits := 8 * (whole + more);
    var q := 8 * whole / U64;
    assert 8 * whole == U64 * q + bitLength;
    assert bits == U64 * q + (bitLength + 8 * more);
    A.AddMultiple(U64, q, bitLength + 8 * more);
    LengthIsModular(bits / U64, bits % U64);
  }

  method FillFirst(block: array<int>, data: array<int>, offset: nat, nonce: array<int>, count: nat)
    requires block.Length == 64 && offset + count <= 64 == data.Length && count <= nonce.Length && block !in {data, nonce}
    modifies block
    ensures block[..] == data[..offset] + nonce[..count] + Zeros(64 - offset - count)
  {
    hide Zeros, Placed;
    Clear(block);
    Copy(block, 0, data, 0, offset);
    Copy(block, offset, nonce, 0, count);
    assert data[0..offset] == data[..offset] && nonce[0..count] == nonce[..count];
    TwoPieces(data[..offset], nonce[..count]);
  }

  method FillSecond(block: array<int>, nonce: array<int>, from: nat, count: nat)
    requires block.Length == 64 && from + count <= nonce.Length && count <= 64 && block != nonce
    modifies block
    ensures block[..] == nonce[from..from + count] + Zeros(64 - count)
  {
    hide Zeros, Placed;
    Clear(block);
    Copy(block, 0, nonce, from, count);
    OnePiece(nonce[from..from + count]);
  }

  class PreparedBlocks {
    const first: array<int>
    const second: array<int>
    var firstOffset: nat
    var firstLength: nat
    var secondLength: nat
    var usesSecond: bool

    ghost predicate Valid() {
      first.Length == 64 && second.Length == 64 && first != second
    }

    // The blocks that are still to be hashed.
    ghost function Blocks(): seq<int>
      reads this, first, second
    {
      first[..] + (if usesSecond then second[..] else [])
    }

    // The blocks hold a rest, the digits of a nonce and the padding of a message of total bytes.
    ghost predicate Laid(rest: seq<int>, digits: seq<int>, total: nat)
      reads this, first, second
    {
      && Valid() && |rest| < 64 && |digits| < NONCE_BUFFER_LENGTH && total % 64 == (|rest| + |digits|) % 64
      && firstOffset == |rest| && firstLength == FirstPart(|rest|, |digits|) && secondLength == |digits| - firstLength
      && usesSecond == (|rest| + |digits| >= 56)
      && first[..] == rest + digits[..firstLength] + FirstTail(|rest|, |digits|, total)
      && second[..] == digits[firstLength..] + SecondTail(|rest|, |digits|, total)
    }

    lemma LaidBlocks(rest: seq<int>, digits: seq<int>, total: nat)
      requires Laid(rest, digits, total)
      ensures Blocks() == rest + digits + Padding(total)
    {
      hide Padding, Zeros;
      assert digits == digits[..firstLength] + digits[firstLength..];
      if |rest| + |digits| < 56 {
        assert digits[..firstLength] == digits;
      } else if |rest| + |digits| <= 64 {
        assert digits[..firstLength] == digits;
        assert Padding(total) == Padding(total)[..64 - |rest| - |digits|] + Padding(total)[64 - |rest| - |digits|..];
      }
    }

    constructor ()
      ensures Valid() && fresh(first) && fresh(second)
    {
      first, second := new int[64], new int[64];
      firstOffset, firstLength, secondLength, usesSecond := 0, 0, 0, false;
    }

    method Prepare(prefix: Context, nonce: array<int>, n: nat, ghost h: Hash, ghost message: seq<int>)
      requires Valid() && prefix.Holds(h, message) && n < NONCE_BUFFER_LENGTH == nonce.Length
      requires {first, second} !! {prefix.data, nonce}
      modifies this, first, second
      ensures Laid(prefix.data[..prefix.dataLength], nonce[..n], |message| + n)
    {
      hide LengthBytes, Padding, Zeros, Fold, Placed, FirstTail, SecondTail;
      var rest := prefix.dataLength;
      RestModulo(|message|, rest, n);
      TailCases(rest, n, |message| + n);
      firstOffset := rest;
      firstLength := if n > 64 - rest then 64 - rest else n;
      secondLength := n - firstLength;
      usesSecond := secondLength > 0;
      ghost var r, d := prefix.data[..rest], nonce[..n];
      Fill(prefix.data, nonce);
      var bits := (prefix.bitLength + 8 * (rest + n)) % U64;
      LengthInBits(prefix.bitLength, |message| - rest, rest + n);
      Finish(rest + firstLength, bits, r + d[..firstLength], d[firstLength..], |message| + n);
    }

    // Cleared blocks with the rest and the digits in them.
    method Fill(data: array<int>, nonce: array<int>)
      requires Valid() && firstOffset + firstLength <= 64 == data.Length && firstLength + secondLength < NONCE_BUFFER_LENGTH == nonce.Length
      requires {first, second} !! {data, nonce}
      modifies first, second
      ensures var d := nonce[..firstLength + secondLength];
              && first[..] == data[..firstOffset] + d[..firstLength] + Zeros(64 - firstOffset - firstLength)
              && second[..] == d[firstLength..] + Zeros(64 - secondLength)
    {
      hide Zeros, Placed;
      FillFirst(first, data, firstOffset, nonce, firstLength);
      FillSecond(second, nonce, firstLength, secondLength);
      ghost var d := nonce[..firstLength + secondLength];
      assert nonce[..firstLength] == d[..firstLength] && nonce[firstLength..firstLength + secondLength] == d[firstLength..];
    }

    // The marker and the length, wherever they belong.
    method Finish(suffix: nat, bits: nat, ghost head: seq<int>, ghost spill: seq<int>, ghost total: nat)
      requires Valid() && |head| == suffix <= 64 && |spill| == secondLength < NONCE_BUFFER_LENGTH && usesSecond == (spill != [])
      requires first[..] == head + Zeros(64 - |head|) && second[..] == spill + Zeros(64 - |spill|)
      requires (spill != [] ==> |head| == 64) && total % 64 == (|head| + |spill|) % 64
      requires LengthBytes(bits) == LengthBytes(8 * total)
      modifies `usesSecond, first, second
      ensures usesSecond == (|head| + |spill| >= 56)
      ensures if spill != [] then first[..] == head && second[..] == spill + Padding(total)
              else if |head| < 56 then first[..] == head + Padding(total) && second[..] == Zeros(64)
              else |Padding(total)| >= 64 - |head| &&
                   first[..] == head + Padding(total)[..64 - |head|] && second[..] == Padding(total)[64 - |head|..]
    {
      hide LengthBytes, Zeros, Padding, Placed;
      if usesSecond {
        CloseBlock(second, secondLength, bits, spill, total);
        return;
      }
      if suffix < 56 {
        CloseBlock(first, suffix, bits, head, total);
        return;
      }
      usesSecond := true;
      CloseTwoBlocks(first, second, suffix, bits, head, total);
    }

    // The digits have changed from an index on.
    method Update(nonce: array<int>, changed: nat, ghost rest: seq<int>, ghost before: seq<int>, ghost n: nat, ghost total: nat)
      requires Laid(rest, before, total) && n == |before| && nonce.Length == NONCE_BUFFER_LENGTH
      requires changed <= n && nonce[..changed] == before[..changed] && nonce !in {first, second}
      modifies first, second
      ensures Laid(rest, nonce[..n], total)
    {
      hide Padding, Zeros, FirstTail, SecondTail, Placed;
      ghost var now, part := nonce[..n], firstLength;
      Patches(rest, before, now, part, changed, FirstTail(|rest|, n, total), SecondTail(|rest|, n, total));
      if changed < firstLength {
        assert nonce[changed..part] == now[changed..part] && nonce[part..n] == now[part..];
        Copy(first, firstOffset + changed, nonce, changed, firstLength - changed);
        Copy(second, 0, nonce, firstLength, secondLength);
      } else if changed - firstLength < secondLength {
        assert nonce[changed..n] == now[changed..];
        Copy(second, changed - firstLength, nonce, changed, secondLength - (changed - firstLength));
      }
    }
  }

  // The marker and the length complete a block that has room for both.
  method CloseBlock(block: array<int>, position: nat, bits: nat, ghost head: seq<int>, ghost total: nat)
    requires block.Length == 64 && position == |head| < 56 && block[..] == head + Zeros(64 - |head|)
    requires total % 64 == |head| && LengthBytes(bits) == LengthBytes(8 * total)
    modifies block
    ensures block[..] == head + Padding(total)
  {
    hide LengthBytes, Zeros, Padding, Placed;
    EndOfBlock(head, total);
    block[position] := 0x80;
    WriteLength(block, bits);
  }

  // Otherwise the marker, if it fits, ends the first block and the length the second one.
  method CloseTwoBlocks(first: array<int>, second: array<int>, position: nat, bits: nat, ghost head: seq<int>, ghost total: nat)
    requires first.Length == 64 && second.Length == 64 && first != second && 56 <= position == |head| <= 64
    requires first[..] == head + Zeros(64 - |head|) && second[..] == Zeros(64)
    requires total % 64 == |head| % 64 && LengthBytes(bits) == LengthBytes(8 * total)
    modifies first, second
    ensures |Padding(total)| >= 64 - |head|
    ensures first[..] == head + Padding(total)[..64 - |head|] && second[..] == Padding(total)[64 - |head|..]
  {
    hide LengthBytes, Zeros, Padding, Placed;
    if position < 64 {
      EndOfTwoBlocks(head, total);
      first[position] := 0x80;
      WriteLength(second, bits);
    } else {
      NoZeros();
      assert [] + Zeros(64) == Zeros(64);
      CloseBlock(second, 0, bits, [], total);
      assert [] + Padding(total) == Padding(total) && Padding(total)[0..] == Padding(total);
      assert head + Padding(total)[..0] == head;
    }
  }

  // Overwriting the digits from the changed one on turns the blocks of the old digits into those
  // of the new ones.
  lemma Patches(rest: seq<int>, before: seq<int>, now: seq<int>, part: nat, changed: nat, tail: seq<int>, tail2: seq<int>)
    requires |now| == |before| && changed <= |now| && part <= |now| && now[..changed] == before[..changed]
    ensures if changed < part then
              && Placed(rest + before[..part] + tail, |rest| + changed, now[changed..part]) == rest + now[..part] + tail
              && Placed(before[part..] + tail2, 0, now[part..]) == now[part..] + tail2
            else
              && now[..part] == before[..part]
              && (changed < |now| ==> Placed(before[part..] + tail2, changed - part, now[changed..]) == now[part..] + tail2)
              && (changed == |now| ==> now == before)
  {
    hide Placed;
    Halves(before, now, changed, part);
    if changed < part {
      Patched(rest, before[..part], now[..part], tail, changed);
      Patched([], before[part..], now[part..], tail2, 0);
      assert now[..part][changed..] == now[changed..part] && now[part..][0..] == now[part..];
    } else {
      Patched([], before[part..], now[part..], tail2, changed - part);
      assert now[part..][changed - part..] == now[changed..];
    }
  }

  lemma Halves(before: seq<int>, now: seq<int>, changed: nat, part: nat)
    requires |now| == |before| && changed <= |now| && part <= |now| && now[..changed] == before[..changed]
    ensures if changed < part then now[..part][..changed] == before[..part][..changed]
            else now[..part] == before[..part] && now[part..][..changed - part] == before[part..][..changed - part]
    ensures changed == |now| ==> now == before
  {
    assert forall i :: 0 <= i < changed ==> now[i] == now[..changed][i] == before[..changed][i] == before[i];
  }

  // Overwriting the changed end of a piece replaces the piece.
  lemma Patched(front: seq<int>, before: seq<int>, now: seq<int>, tail: seq<int>, changed: nat)
    requires |now| == |before| && changed <= |now| && now[..changed] == before[..changed]
    ensures Placed(front + before + tail, |front| + changed, now[changed..]) == front + now + tail
    ensures front == [] ==> front + before + tail == before + tail && front + now + tail == now + tail
  {
    assert now == now[..changed] + now[changed..];
    assert (front + before + tail)[..|front| + changed] == front + before[..changed];
  }

  lemma NoZeros()
    ensures Zeros(0) == []
  {
  }

  lemma OnePiece(a: seq<int>)
    requires |a| <= 64
    ensures Placed(Zeros(64), 0, a) == a + Zeros(64 - |a|)
  {
  }

  lemma TwoPieces(a: seq<int>, b: seq<int>)
    requires |a| + |b| <= 64
    ensures Placed(Placed(Zeros(64), 0, a), |a|, b) == a + b + Zeros(64 - |a| - |b|)
  {
  }
}

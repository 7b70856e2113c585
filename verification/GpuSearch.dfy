/** The search on a graphics card: windows of nonces with one digit count, and the threads that scan
    them. */
module GpuSearch {
  import opened Base
  import opened Decimals
  import opened Sha256Blocks
  import opened ProofOfWork

  // ---- Windows ----------------------------------------------------------------------------

  const U64_MAX: int := U64 - 1
  const MAX_FIXED_DIGIT_LENGTH: nat := 20

  // The last nonce with a number of digits, as far as 64 bits go.
  function DigitBoundary(digits: nat): int
    requires 1 <= digits <= MAX_FIXED_DIGIT_LENGTH
  {
    if digits < MAX_FIXED_DIGIT_LENGTH then Power10(digits) - 1 else U64_MAX
  }

  function DispatchWindow(start: nat, remaining: int, batch: int, step: nat): (int, Option<nat>) {
    var attempts := if batch <= remaining then batch else remaining;
    if attempts < 1 || step != 1 then (attempts, None) else
    var digits := |Decimal(start)|;
    if digits > MAX_FIXED_DIGIT_LENGTH then (attempts, None) else
    var left := DigitBoundary(digits) - start + 1;
    (if left < attempts then left else attempts, Some(digits))
  }

  lemma DigitsOf(n: nat, digits: nat)
    requires digits >= 1 && (n == 0 ==> digits == 1) && n < Power10(digits) && (digits > 1 ==> n >= Power10(digits - 1))
    ensures |Decimal(n)| == digits
  {
    hide Decimal;
    DecimalDenotes(n);
    DenotesBounds(Decimal(n));
    var m := |Decimal(n)|;
    if m < digits {
      Power10Grows(m, digits - 1);
    } else if m > digits {
      Power10Grows(digits, m - 1);
    }
  }

  // A window is never empty and never crosses into numerals of another length; it is as long as
  // the batch and the remaining attempts allow, unless it ends at the last nonce of its length.
  lemma WindowKeepsDigits(start: nat, remaining: int, batch: int, step: nat)
    requires start < U64 && remaining >= 1 && batch >= 1
    ensures var (attempts, digits) := DispatchWindow(start, remaining, batch, step);
            && 1 <= attempts <= remaining && attempts <= batch
            && (digits.Some? <==> step == 1)
            && (digits.Some? ==> forall n: nat :: start <= n < start + attempts ==> n < U64 && |Decimal(n)| == digits.value)
            && (digits.Some? && attempts < batch && attempts < remaining ==>
                  start + attempts == U64 || |Decimal(start + attempts)| == digits.value + 1)
  {
    hide Decimal, Denotes, Power10;
    TwentyDigits(start);
    TenToTheTwenty();
    NineteenDigits();
    DecimalDenotes(start);
    DenotesBounds(Decimal(start));
    var digits := |Decimal(start)|;
    var (attempts, fixed) := DispatchWindow(start, remaining, batch, step);
    if step == 1 {
      if digits < 20 {
        Power10Grows(digits, 19);
        if start + attempts == Power10(digits) {
          OneMorePower(digits);
          DigitsOf(start + attempts, digits + 1);
        }
      }
      forall n: nat | start <= n < start + attempts
        ensures |Decimal(n)| == digits
      {
        DigitsOf(n, digits);
      }
    }
  }

  lemma OneMorePower(n: nat)
    ensures Power10(n) < Power10(n + 1)
  {
  }

  lemma NineteenDigits()
    ensures Power10(20) == 10 * Power10(19) && Power10(0) == 1 && Power10(1) == 10
  {
  }

  // Past the last 64-bit nonce, up to twenty digits, a window is empty: the search does not move on.
  lemma EmptyExactlyPastTheLastNonce(start: nat, remaining: int, batch: int)
    requires remaining >= 1 && batch >= 1 && start < Power10(20)
    ensures DispatchWindow(start, remaining, batch, 1).0 >= 1 <==> start < U64
  {
    hide Decimal;
    if start < U64 {
      WindowKeepsDigits(start, remaining, batch, 1);
    } else {
      TenToTheTwenty();
      assert Power10(20) == 10 * Power10(19);
      DigitsOf(start, 20);
    }
  }

  // ---- One thread over nonces with one digit count ----------------------------------------

  method WriteFixedDigits(nonce: nat, digits: nat, buffer: array<int>)
    requires buffer.Length == NONCE_BUFFER_LENGTH && |Decimal(nonce)| == digits <= MAX_FIXED_DIGIT_LENGTH
    modifies buffer
    ensures buffer[..digits] == Decimal(nonce)
  {
    var rest, index := nonce, digits;
    while index > 0
      invariant 0 <= index <= digits
      invariant index == digits ==> rest == nonce
      invariant index < digits ==> Decimal(nonce) == (if rest == 0 then [] else Decimal(rest)) + buffer[index..digits]
    {
      index := index - 1;
      ghost var done := buffer[index + 1..digits];
      buffer[index] := ZERO + rest % 10;
      assert buffer[index..digits] == [ZERO + rest % 10] + done;
      rest := rest / 10;
    }
  }

  // Adds one without room for another digit; -1 when all digits are nines.
  method IncrementFixedDigits(buffer: array<int>, digits: nat, ghost n: nat) returns (changed: int)
    requires 1 <= digits <= buffer.Length && buffer[..digits] == Decimal(n)
    modifies buffer
    ensures changed >= 0 <==> |Decimal(n + 1)| == digits
    ensures changed >= 0 ==> changed < digits && buffer[..digits] == Decimal(n + 1) && buffer[..changed] == old(buffer[..changed])
  {
    hide Decimal, Denotes;
    DecimalDenotes(n);
    ghost var s := buffer[..digits];
    var index := digits - 1;
    while index >= 0 && buffer[index] == NINE
      invariant -1 <= index < digits
      invariant forall k :: 0 <= k <= index ==> buffer[k] == s[k]
      invariant forall k :: index < k < digits ==> s[k] == NINE && buffer[k] == ZERO
    {
      buffer[index] := ZERO;
      index := index - 1;
    }
    if index < 0 {
      RolledOverIsNext(s, [ZERO + 1] + buffer[..digits], n);
      return -1;
    }
    buffer[index] := buffer[index] + 1;
    RaisedIsNext(s, buffer[..digits], index, n);
    changed := index;
  }

  // The first winner among the candidates of one thread, hashed on patched blocks.
  method ScanFixedDigits(h: Hash, prefix: Context, difficulty: nat, start: nat, first: nat, limit: nat, digits: nat, ghost message: seq<int>)
    returns (winner: Option<nat>)
    requires Sane(h) && prefix.Holds(h, message) && difficulty <= 256 && first < limit
    requires 1 <= digits <= MAX_FIXED_DIGIT_LENGTH && forall n: nat :: start + first <= n < start + limit ==> |Decimal(n)| == digits
    ensures match winner
            case None => NoneWins(h, message, difficulty, start, first, limit)
            case Some(i) => first <= i < limit && Wins(h, message, difficulty, start + i) && NoneWins(h, message, difficulty, start, first, i)
  {
    hide Decimal, Fold, FirstTail, SecondTail, Digest, HasLeadingZeroBits, NumberOf, PreparedBlocks.Laid;
    var buffer := new int[NONCE_BUFFER_LENGTH];
    WriteFixedDigits(start + first, digits, buffer);
    var prepared := new PreparedBlocks();
    prepared.Prepare(prefix, buffer, digits, h, message);
    ghost var rest := prefix.data[..prefix.dataLength];
    var candidate := first;
    while candidate < limit
      invariant first <= candidate <= limit && NoneWins(h, message, difficulty, start, first, candidate)
      invariant candidate < limit ==> buffer[..digits] == Decimal(start + candidate) && prepared.Laid(rest, buffer[..digits], |message| + digits)
      invariant prefix.Holds(h, message) && rest == prefix.data[..prefix.dataLength]
      invariant fresh(prepared) && fresh(prepared.first) && fresh(prepared.second) && fresh(buffer)
      invariant {prepared.first, prepared.second} !! {prefix.data, buffer}
    {
      var digest := HashPrepared(h, prefix, prepared, message, buffer[..digits]);
      var wins := WordsHaveLeadingZeroBits(digest, difficulty);
      if wins {
        return Some(candidate);
      }
      if candidate + 1 >= limit {
        return None;
      }
      ghost var before := buffer[..digits];
      var changed := IncrementFixedDigits(buffer, digits, start + candidate);
      prepared.Update(buffer, changed, rest, before, digits, |message| + digits);
      candidate := candidate + 1;
    }
    winner := None;
  }

  ghost predicate NoneWins(h: Hash, message: seq<int>, difficulty: nat, start: nat, from: nat, to: nat) {
    forall n: nat :: start + from <= n < start + to ==> !Wins(h, message, difficulty, n)
  }
}

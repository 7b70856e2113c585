/** Decimal numerals in a byte buffer: what they denote, and incrementing them in place. */
module Decimals {

  const ZERO: int := 48
  const NINE: int := 57
  const NONCE_BUFFER_LENGTH: nat := 32
  const U64: int := 0x1_0000_0000_0000_0000

  predicate IsDigit(b: int) {
    ZERO <= b <= NINE
  }

  predicate AllDigits(s: seq<int>) {
    forall i :: 0 <= i < |s| ==> IsDigit(s[i])
  }

  function Power10(n: nat): nat
    ensures Power10(n) >= 1
  {
    if n == 0 then 1 else 10 * Power10(n - 1)
  }

  // The number a string of digits denotes.
  function Denotes(s: seq<int>): int {
    if s == [] then 0 else 10 * Denotes(s[..|s| - 1]) + (s[|s| - 1] - ZERO)
  }

  // The decimal numeral of a number, without leading zeros.
  function Decimal(n: nat): (s: seq<int>)
    ensures |s| >= 1
  {
    if n < 10 then [ZERO + n] else Decimal(n / 10) + [ZERO + n % 10]
  }

  predicate IsNumeral(s: seq<int>) {
    |s| >= 1 && AllDigits(s) && (|s| > 1 ==> s[0] != ZERO)
  }

  lemma {:induction false} DecimalDenotes(n: nat)
    ensures IsNumeral(Decimal(n)) && Denotes(Decimal(n)) == n
    ensures n > 0 ==> Decimal(n)[0] != ZERO
  {
    if n >= 10 {
      DecimalDenotes(n / 10);
      var s := Decimal(n);
      assert s[..|s| - 1] == Decimal(n / 10);
    } else {
      assert Denotes([ZERO + n]) == 10 * Denotes([]) + n;
    }
  }

  lemma {:induction false} DenotesBounds(s: seq<int>)
    requires AllDigits(s)
    ensures 0 <= Denotes(s) < Power10(|s|)
    ensures s != [] && s[0] != ZERO ==> Denotes(s) >= Power10(|s| - 1)
  {
    if |s| == 1 {
      assert s[..0] == [];
    } else if s != [] {
      DenotesBounds(s[..|s| - 1]);
    }
  }

  // A numeral is the numeral of what it denotes.
  lemma {:induction false} NumeralsAreUnique(s: seq<int>)
    requires IsNumeral(s)
    ensures Denotes(s) >= 0 && Decimal(Denotes(s)) == s
  {
    var front, d := s[..|s| - 1], s[|s| - 1] - ZERO;
    DenotesBounds(s);
    if |s| == 1 {
      assert front == [];
      assert s == [ZERO + d];
    } else {
      NumeralsAreUnique(front);
      DenotesBounds(front);
      assert Denotes(front) >= 1;
      assert (10 * Denotes(front) + d) / 10 == Denotes(front) && (10 * Denotes(front) + d) % 10 == d;
    }
  }

  // What more digits make of a number.
  function Followed(v: int, digits: seq<int>): int {
    if digits == [] then v else 10 * Followed(v, digits[..|digits| - 1]) + (digits[|digits| - 1] - ZERO)
  }

  lemma {:induction false} DenotesAppend(a: seq<int>, b: seq<int>)
    ensures Denotes(a + b) == Followed(Denotes(a), b)
  {
    if b == [] {
      assert a + b == a;
    } else {
      DenotesAppend(a, b[..|b| - 1]);
      assert (a + b)[..|a + b| - 1] == a + b[..|b| - 1];
    }
  }

  lemma {:induction false} FollowedByDigit(v: int, d: int, digits: seq<int>)
    ensures Followed(10 * v + (d - ZERO), digits) == Followed(v, [d] + digits)
  {
    if digits == [] {
      assert ([d] + digits)[..0] == [];
    } else {
      FollowedByDigit(v, d, digits[..|digits| - 1]);
      assert ([d] + digits)[..|digits|] == [d] + digits[..|digits| - 1];
    }
  }

  // ---- Writing a number -------------------------------------------------------------------

  function Backwards(s: seq<int>): (r: seq<int>)
    ensures |r| == |s| && forall i :: 0 <= i < |s| ==> r[i] == s[|s| - 1 - i]
  {
    if s == [] then [] else [s[|s| - 1]] + Backwards(s[..|s| - 1])
  }

  lemma {:induction false} Power10Grows(m: nat, n: nat)
    requires m <= n
    ensures Power10(m) <= Power10(n)
    decreases n
  {
    if m < n {
      Power10Grows(m, n - 1);
    }
  }

  lemma TenToTheTwenty()
    ensures Power10(20) == 100000000000000000000
  {
    assert Power10(4) == 10000;
    assert Power10(8) == 100000000;
    assert Power10(12) == 1000000000000;
    assert Power10(16) == 10000000000000000;
  }

  lemma TwentyDigits(n: nat)
    requires n < U64
    ensures |Decimal(n)| <= 20
  {
    TenToTheTwenty();
    DecimalDenotes(n);
    DenotesBounds(Decimal(n));
    if |Decimal(n)| > 20 {
      if n == 0 {
        assert false;
      }
      Power10Grows(20, |Decimal(n)| - 1);
    }
  }

  // Digits come out least significant first.
  method WriteBackwards(value: nat, reversed: array<int>) returns (length: nat)
    requires value < U64 && reversed.Length == NONCE_BUFFER_LENGTH
    modifies reversed
    ensures 1 <= length <= 20 && Decimal(value) == Backwards(reversed[..length])
  {
    TwentyDigits(value);
    reversed[0] := ZERO + value % 10;
    length := 1;
    var rest := value / 10;
    assert reversed[..1] == [ZERO + value % 10];
    while rest != 0
      invariant 1 <= length <= 20 && 0 <= rest
      invariant Decimal(value) == (if rest == 0 then [] else Decimal(rest)) + Backwards(reversed[..length])
    {
      ghost var before := reversed[..length];
      reversed[length] := ZERO + rest % 10;
      OneMoreDigit(rest, reversed[..length + 1], before);
      length := length + 1;
      rest := rest / 10;
    }
  }

  lemma OneMoreDigit(rest: nat, after: seq<int>, before: seq<int>)
    requires rest > 0 && |after| == |before| + 1 && after[..|before|] == before && after[|before|] == ZERO + rest % 10
    ensures Decimal(rest) + Backwards(before) == (if rest / 10 == 0 then [] else Decimal(rest / 10)) + Backwards(after)
  {
  }

  // The digits are turned around into the buffer.
  method WriteDecimal(value: nat, buffer: array<int>) returns (length: nat)
    requires value < U64 && buffer.Length == NONCE_BUFFER_LENGTH
    modifies buffer
    ensures 1 <= length <= 20 && buffer[..length] == Decimal(value)
  {
    var reversed := new int[NONCE_BUFFER_LENGTH];
    length := WriteBackwards(value, reversed);
    ghost var digits := reversed[..length];
    for i := 0 to length
      invariant reversed[..length] == digits
      invariant forall k :: 0 <= k < i ==> buffer[k] == digits[length - 1 - k]
    {
      buffer[i] := reversed[length - 1 - i];
    }
    assert buffer[..length] == Backwards(digits);
  }

  // ---- Incrementing -----------------------------------------------------------------------

  // The buffer holds the numeral of n; afterwards it holds that of n + increment, unless that is
  // too long. The result says from where on the digits have changed.
  ghost predicate Incremented(before: seq<int>, after: seq<int>, length: nat, n: nat, changed: int, newLength: nat) {
    if |Decimal(n)| >= NONCE_BUFFER_LENGTH then changed == -1
    else
      && newLength == |Decimal(n)| <= |after| && after[..newLength] == Decimal(n)
      && 0 <= changed < newLength
      && (newLength == length ==> length <= |before| && after[..changed] == before[..changed])
  }

  // A digit that is not nine is raised by one, and the nines after it become zeros.
  ghost predicate Raised(s: seq<int>, t: seq<int>, i: nat) {
    && |s| == |t| && i < |s| && s[i] < NINE && t[..i] == s[..i] && t[i] == s[i] + 1
    && forall k :: i < k < |s| ==> s[k] == NINE && t[k] == ZERO
  }

  lemma {:induction false} RaisedDenotes(s: seq<int>, t: seq<int>, i: nat)
    requires Raised(s, t, i)
    ensures Denotes(t) == Denotes(s) + 1
  {
    if i < |s| - 1 {
      RaisedDenotes(s[..|s| - 1], t[..|t| - 1], i);
    } else {
      assert s[..|s| - 1] == t[..|t| - 1];
    }
  }

  lemma RaisedIsNext(s: seq<int>, t: seq<int>, i: nat, n: nat)
    requires s == Decimal(n) && Raised(s, t, i)
    ensures t == Decimal(n + 1)
  {
    hide Denotes;
    DecimalDenotes(n);
    RaisedDenotes(s, t, i);
    assert i > 0 ==> t[0] == t[..i][0] == s[0];
    NumeralsAreUnique(t);
  }

  // Nines only: a one comes in front of zeros.
  ghost predicate RolledOver(s: seq<int>, t: seq<int>) {
    && |t| == |s| + 1 && t[0] == ZERO + 1
    && (forall k :: 0 <= k < |s| ==> s[k] == NINE) && (forall k :: 0 < k < |t| ==> t[k] == ZERO)
  }

  lemma {:induction false} RolledOverDenotes(s: seq<int>, t: seq<int>)
    requires RolledOver(s, t)
    ensures Denotes(t) == Denotes(s) + 1
  {
    if s != [] {
      RolledOverDenotes(s[..|s| - 1], t[..|t| - 1]);
    } else {
      assert t[..0] == [];
    }
  }

  lemma RolledOverIsNext(s: seq<int>, t: seq<int>, n: nat)
    requires s == Decimal(n) && RolledOver(s, t)
    ensures t == Decimal(n + 1)
  {
    hide Denotes;
    DecimalDenotes(n);
    RolledOverDenotes(s, t);
    NumeralsAreUnique(t);
  }

  method IncrementByOne(buffer: array<int>, length: nat, ghost n: nat) returns (changed: int, newLength: nat)
    requires buffer.Length == NONCE_BUFFER_LENGTH && 1 <= length < NONCE_BUFFER_LENGTH && buffer[..length] == Decimal(n)
    modifies buffer
    ensures Incremented(old(buffer[..]), buffer[..], length, n + 1, changed, newLength)
  {
    hide Decimal, Denotes;
    DecimalDenotes(n);
    ghost var s := buffer[..length];
    var index := length - 1;
    while index >= 0 && buffer[index] == NINE
      invariant -1 <= index < length
      invariant forall k :: 0 <= k <= index ==> buffer[k] == s[k]
      invariant forall k :: index < k < length ==> s[k] == NINE && buffer[k] == ZERO
    {
      buffer[index] := ZERO;
      index := index - 1;
    }
    newLength := length;
    if index >= 0 {
      buffer[index] := buffer[index] + 1;
      RaisedIsNext(s, buffer[..length], index, n);
      return index, newLength;
    }
    RolledOverIsNext(s, [ZERO + 1] + buffer[..length], n);
    if length + 1 >= NONCE_BUFFER_LENGTH {
      return -1, newLength;
    }
    ghost var zeros := buffer[..length];
    MoveUp(buffer, length, 1);
    buffer[0] := ZERO + 1;
    newLength := length + 1;
    assert buffer[..newLength] == [ZERO + 1] + zeros;
    return 0, newLength;
  }

  // Moves the first digits up to make room in front of them.
  method MoveUp(buffer: array<int>, length: nat, room: nat)
    requires length + room <= buffer.Length
    modifies buffer
    ensures buffer[room..room + length] == old(buffer[..length])
  {
    ghost var s := buffer[..length];
    var i := length;
    while i > 0
      invariant 0 <= i <= length
      invariant buffer[..i] == s[..i]
      invariant buffer[room + i..room + length] == s[i..]
    {
      i := i - 1;
      buffer[room + i] := buffer[i];
    }
  }

  // ---- Incrementing by any step -----------------------------------------------------------

  // One column of the addition: the digit that stays and the carry that goes on.
  function Column(d: int, carry: nat): (int, int)
    requires IsDigit(d)
  {
    var sum := (d - ZERO) + carry % 10;
    if sum >= 10 then (ZERO + sum - 10, carry / 10 + 1) else (ZERO + sum, carry / 10)
  }

  lemma ColumnAdds(d: int, carry: nat)
    requires IsDigit(d) && carry > 0
    ensures var (e, rest) := Column(d, carry);
            IsDigit(e) && 0 <= rest <= carry && 10 * rest + (e - ZERO) == (d - ZERO) + carry && (rest == 0 ==> e > ZERO)
  {
  }

  // Columns have been added from the right down to index, and carry is still to be added.
  ghost predicate Adding(s: seq<int>, t: seq<int>, index: int, carry: int, total: int) {
    && |s| == |t| && -1 <= index < |s| && AllDigits(t) && carry >= 0 && t[..index + 1] == s[..index + 1]
    && Followed(Denotes(s[..index + 1]) + carry, t[index + 1..]) == total
  }

  lemma AddingStarts(s: seq<int>, carry: nat)
    requires s != [] && AllDigits(s)
    ensures Adding(s, s, |s| - 1, carry, Denotes(s) + carry)
  {
    assert s[..|s|] == s && s[|s|..] == [];
  }

  lemma AddingGoesOn(s: seq<int>, t: seq<int>, index: int, carry: int, total: int, t': seq<int>)
    requires Adding(s, t, index, carry, total) && index >= 0 && carry > 0
    requires IsDigit(t[index]) && t' == t[index := Column(t[index], carry).0]
    ensures Adding(s, t', index - 1, Column(t[index], carry).1, total)
  {
    hide Column;
    ColumnAdds(t[index], carry);
    var (e, rest) := Column(t[index], carry);
    var high := s[..index + 1];
    assert high[..index] == s[..index] && high[index] == t[..index + 1][index] == t[index];
    assert t'[index..] == [e] + t[index + 1..];
    FollowedByDigit(Denotes(s[..index]) + rest, e, t[index + 1..]);
    assert t'[..index] == t[..index + 1][..index] == s[..index];
  }

  lemma AdditionEnds(s: seq<int>, t: seq<int>, index: int, total: int)
    requires Adding(s, t, index, 0, total)
    ensures Denotes(t) == total
  {
    DenotesAppend(s[..index + 1], t[index + 1..]);
    assert t == s[..index + 1] + t[index + 1..];
  }

  lemma AdditionOverflows(s: seq<int>, t: seq<int>, carry: nat, total: int)
    requires Adding(s, t, -1, carry, total) && carry > 0
    ensures IsNumeral(Decimal(carry) + t) && Denotes(Decimal(carry) + t) == total
  {
    DecimalDenotes(carry);
    DenotesAppend(Decimal(carry), t);
    assert s[..0] == [] && t[0..] == t;
  }

  method IncrementBy(buffer: array<int>, length: nat, increment: nat, ghost n: nat) returns (changed: int, newLength: nat)
    requires buffer.Length == NONCE_BUFFER_LENGTH && 1 <= length < NONCE_BUFFER_LENGTH && buffer[..length] == Decimal(n)
    requires increment < U64
    modifies buffer
    ensures Incremented(old(buffer[..]), buffer[..], length, n + increment, changed, newLength)
  {
    hide Decimal, Denotes, Adding, Column, Followed;
    DecimalDenotes(n);
    ghost var s := buffer[..length];
    assert forall k :: 0 <= k <= length ==> buffer[..][..k] == s[..k];
    AddingStarts(s, increment);
    var index, carry := length - 1, increment;
    changed := length;
    while index >= 0 && carry > 0
      invariant -1 <= index < length && 0 <= carry < U64
      invariant Adding(s, buffer[..length], index, carry, n + increment) && AllDigits(buffer[..length])
      invariant changed == index + 1 && buffer[..changed] == s[..changed]
      invariant index < length - 1 && carry == 0 && changed == 0 ==> buffer[0] != ZERO
    {
      ghost var t := buffer[..length];
      AddingGoesOn(s, t, index, carry, n + increment, t[index := Column(t[index], carry).0]);
      ColumnAdds(t[index], carry);
      var column := Column(buffer[index], carry);
      buffer[index] := column.0;
      carry := column.1;
      changed := index;
      index := index - 1;
      assert buffer[..length] == t[changed := column.0];
    }
    newLength := length;
    if carry == 0 {
      AdditionEnds(s, buffer[..length], index, n + increment);
      assert changed > 0 ==> buffer[0] == s[0];
      NumeralOf(buffer[..length], n + increment);
      assert buffer[..][..length] == buffer[..length] && buffer[..][..changed] == buffer[..changed];
      return if changed < length then changed else length - 1, newLength;
    }
    AdditionOverflows(s, buffer[..length], carry, n + increment);
    NumeralOf(Decimal(carry) + buffer[..length], n + increment);
    var prefix := new int[NONCE_BUFFER_LENGTH];
    var prefixLength := WriteDecimal(carry, prefix);
    if length + prefixLength >= NONCE_BUFFER_LENGTH {
      return -1, newLength;
    }
    PutInFront(buffer, length, prefix, prefixLength);
    newLength := length + prefixLength;
    return 0, newLength;
  }

  method PutInFront(buffer: array<int>, length: nat, prefix: array<int>, prefixLength: nat)
    requires prefix != buffer && prefixLength <= prefix.Length && length + prefixLength <= buffer.Length
    modifies buffer
    ensures buffer[..prefixLength + length] == old(prefix[..prefixLength] + buffer[..length])
  {
    MoveUp(buffer, length, prefixLength);
    ghost var digits := old(buffer[..length]);
    for i := 0 to prefixLength
      invariant buffer[..i] == prefix[..i] && buffer[prefixLength..prefixLength + length] == digits
    {
      buffer[i] := prefix[i];
    }
    assert buffer[..prefixLength + length] == prefix[..prefixLength] + digits;
  }

  lemma NumeralOf(s: seq<int>, n: nat)
    requires IsNumeral(s) && Denotes(s) == n
    ensures s == Decimal(n)
  {
    NumeralsAreUnique(s);
  }
}

/** Laws the arithmetic instructions obey together, wrapping around at 2^256. */
module UvmLaws {
  import opened Base
  import opened Uvm
  import opened UvmTheorems

  lemma NormalizedSum(a: int, b: int)
    ensures Normalize(Normalize(a) + b) == Normalize(a + b)
  {
    var q := a / WORD_MODULUS;
    assert a == WORD_MODULUS * q + Normalize(a);
    AddWraps(q, Normalize(a) + b);
  }

  lemma AddWraps(q: int, r: int)
    ensures Normalize(WORD_MODULUS * q + r) == Normalize(r)
  {
  }

  function Result(op: Opcode, a: int, b: int): int
    requires IsBinary(op)
  {
    var v := BinaryValue(op, a, b);
    if v.Success? then Normalize(v.value) else 0
  }

  // Words wrap around at 2^256: subtraction undoes addition, addition undoes subtraction.
  lemma SubtractionUndoesAddition(a: int, b: int)
    requires IsWord(a) && IsWord(b)
    ensures Result(SUB, Result(ADD, a, b), b) == a && Result(ADD, Result(SUB, a, b), b) == a
    ensures Result(SUB, 0, 1) == WORD_MODULUS - 1
  {
    NormalizedSum(a + b, -b);
    NormalizedSum(a - b, b);
  }

  lemma MultiplicationDistributes(a: int, b: int)
    requires IsWord(a) && IsWord(b)
    ensures a + 1 < WORD_MODULUS ==> Result(MUL, a + 1, b) == Result(ADD, Result(MUL, a, b), b)
    ensures Result(MUL, 1, a) == a && Result(MUL, 0, a) == 0
  {
    NormalizedSum(a * b, b);
    assert (a + 1) * b == a * b + b;
  }

  // Exclusive or works bit by bit: two equal numbers give zero, and it undoes itself.
  lemma {:induction false} XorWithItself(a: nat)
    ensures Xor(a, 0) == a && Xor(a, a) == 0
  {
    if a != 0 {
      XorWithItself(a / 2);
    }
  }

  lemma XorStep(a: nat, b: nat)
    ensures Xor(a, b) == 2 * Xor(a / 2, b / 2) + (a % 2 + b % 2) % 2
    ensures Xor(a, b) / 2 == Xor(a / 2, b / 2) && Xor(a, b) % 2 == (a % 2 + b % 2) % 2
  {
    Halved(Xor(a / 2, b / 2), (a % 2 + b % 2) % 2);
  }

  lemma {:induction false} XorUndoesItself(a: nat, b: nat)
    ensures Xor(Xor(a, b), b) == a
  {
    XorWithItself(a);
    hide Xor;
    if b != 0 {
      XorUndoesItself(a / 2, b / 2);
      XorStep(a, b);
      XorStep(Xor(a, b), b);
      BitsCancel(a % 2, b % 2);
    }
  }

  lemma BitsCancel(x: nat, y: nat)
    requires x < 2 && y < 2
    ensures ((x + y) % 2 + y) % 2 == x
  {
  }

  lemma Halved(x: nat, bit: nat)
    requires bit < 2
    ensures (2 * x + bit) / 2 == x && (2 * x + bit) % 2 == bit
  {
  }
}

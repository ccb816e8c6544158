/** The 32-bit words of C and the operations on their bits. */
module Bits {
  import opened Words

  type Word = w: int | 0 <= w < UNSIGNED_INT witness 0

  datatype Op = Conjunction | Disjunction | Exclusion

  predicate Apply(op: Op, p: bool, q: bool) {
    match op
    case Conjunction => p && q
    case Disjunction => p || q
    case Exclusion => p != q
  }

  /** The operation on the lowest `n` bits. */
  function Combine(op: Op, x: nat, y: nat, n: nat): (r: nat)
    ensures r < Power2(n)
  {
    if n == 0 then 0
    else (if Apply(op, x % 2 == 1, y % 2 == 1) then 1 else 0) + 2 * Combine(op, x / 2, y / 2, n - 1)
  }

  function And(x: Word, y: Word): Word {
    Power32();
    Combine(Conjunction, x, y, 32)
  }

  function Or(x: Word, y: Word): Word {
    Power32();
    Combine(Disjunction, x, y, 32)
  }

  function Xor(x: Word, y: Word): Word {
    Power32();
    Combine(Exclusion, x, y, 32)
  }

  function Not(x: Word): Word {
    UNSIGNED_INT - 1 - x
  }

  predicate Bit(x: nat, i: nat) {
    if i == 0 then x % 2 == 1 else Bit(x / 2, i - 1)
  }

  lemma {:induction false} CombineBit(op: Op, x: nat, y: nat, n: nat, i: nat)
    requires i < n
    ensures Bit(Combine(op, x, y, n), i) == Apply(op, Bit(x, i), Bit(y, i))
  {
    if i > 0 {
      CombineBit(op, x / 2, y / 2, n - 1, i - 1);
    }
  }

  lemma {:induction false} NotBit(x: nat, n: nat, i: nat)
    requires i < n && x < Power2(n)
    ensures Bit(Power2(n) - 1 - x, i) == !Bit(x, i)
  {
    if i > 0 {
      assert (Power2(n) - 1 - x) / 2 == Power2(n - 1) - 1 - x / 2;
      NotBit(x / 2, n - 1, i - 1);
    }
  }

  function Power2(n: nat): (p: nat)
    ensures p > 0
  {
    if n == 0 then 1 else 2 * Power2(n - 1)
  }

  lemma {:induction false} Power2Splits(n: nat, m: nat)
    ensures Power2(n + m) == Power2(n) * Power2(m)
  {
    if n > 0 {
      Power2Splits(n - 1, m);
      Double(Power2(n - 1), Power2(m));
    }
  }

  lemma Double(a: nat, b: nat)
    ensures 2 * a * b == 2 * (a * b)
  {
  }

  lemma Power32()
    ensures Power2(32) == UNSIGNED_INT
  {
    assert Power2(8) == 256;
    Power2Splits(8, 8);
    Power2Splits(16, 16);
  }

  function ShiftLeft(x: Word, n: nat): Word {
    x * Power2(n) % UNSIGNED_INT
  }

  function ShiftRight(x: Word, n: nat): (r: nat) {
    Over(x, Power2(n))
  }

  function Over(x: nat, p: nat): (r: nat)
    requires p > 0
  {
    x / p
  }

  /** The word rotated left: its high bits come in again at the low end. */
  function RotateLeft(x: Word, n: nat): Word
    requires n <= 32
  {
    RotateFits(x, n);
    ShiftLeft(x, n) + ShiftRight(x, 32 - n)
  }

  lemma RotateFits(x: Word, n: nat)
    requires n <= 32
    ensures ShiftLeft(x, n) + ShiftRight(x, 32 - n) < UNSIGNED_INT
    ensures ShiftLeft(x, n) == x % Power2(32 - n) * Power2(n) && ShiftRight(x, 32 - n) < Power2(n)
  {
    hide Power2;
    var p, q := Power2(n), Power2(32 - n);
    Power2Splits(n, 32 - n);
    Power32();
    RotateParts(x, p, q);
  }

  lemma RotateParts(x: nat, p: nat, q: nat)
    requires p > 0 && q > 0 && p * q == UNSIGNED_INT && x < UNSIGNED_INT
    ensures x * p % UNSIGNED_INT == x % q * p && x / q < p && x % q * p + x / q < UNSIGNED_INT
  {
    var high, low := x / q, x % q;
    assert x == high * q + low;
    if high >= p {
      Times(p, high, q);
    }
    Distribute(high, q, low, p);
    Times(low, q - 1, p);
    Less(q, p);
    ModDrop(high, low * p);
  }

  lemma Less(q: nat, p: nat)
    ensures (q - 1) * p == p * q - p
  {
  }

  lemma Times(a: int, b: int, c: nat)
    requires a <= b
    ensures a * c <= b * c
  {
  }

  lemma Distribute(h: int, q: int, l: int, p: int)
    ensures (h * q + l) * p == h * (p * q) + l * p
  {
  }

  lemma ModDrop(h: nat, l: nat)
    requires l < UNSIGNED_INT
    ensures (h * UNSIGNED_INT + l) % UNSIGNED_INT == l
  {
  }

  /** Rotating right by as much brings the word back. */
  lemma RotateBack(x: Word, n: nat)
    requires n <= 32
    ensures var r := RotateLeft(x, n);
            r % Power2(n) * Power2(32 - n) + r / Power2(n) == x
  {
    hide Power2, RotateLeft, ShiftLeft;
    var p, q := Power2(n), Power2(32 - n);
    RotateFits(x, n);
    RotateIs(x, n);
    Quotient(x % q, x / q, p);
    Division(x, q);
  }

  lemma RotateIs(x: Word, n: nat)
    requires n <= 32
    ensures RotateLeft(x, n) == ShiftLeft(x, n) + ShiftRight(x, 32 - n)
  {
    hide ShiftLeft, ShiftRight;
  }

  lemma Division(x: nat, q: nat)
    requires q > 0
    ensures x == x / q * q + x % q
  {
  }

  lemma Quotient(l: nat, h: nat, p: nat)
    requires h < p
    ensures (l * p + h) / p == l && (l * p + h) % p == h
  {
    var n := l * p + h;
    Division(n, p);
    if n / p < l {
      Times(n / p + 1, l, p);
    } else if n / p > l {
      Times(l + 1, n / p, p);
    }
  }
}

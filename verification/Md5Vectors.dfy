/** MD5 on bit vectors, which is that of RFC 1321 on words, and the test suite of its section A.5. */
module Md5Vectors {
  import opened Bits
  import opened Md5Spec
  import opened Words

  // ----- a word by its hexadecimal digits ---------------------------------------------------------------

  function D0(x: bv32): bv4 { (x & 0xF) as bv4 }
  function D1(x: bv32): bv4 { ((x >> 4) & 0xF) as bv4 }
  function D2(x: bv32): bv4 { ((x >> 8) & 0xF) as bv4 }
  function D3(x: bv32): bv4 { ((x >> 12) & 0xF) as bv4 }
  function D4(x: bv32): bv4 { ((x >> 16) & 0xF) as bv4 }
  function D5(x: bv32): bv4 { ((x >> 20) & 0xF) as bv4 }
  function D6(x: bv32): bv4 { ((x >> 24) & 0xF) as bv4 }
  function D7(x: bv32): bv4 { ((x >> 28) & 0xF) as bv4 }

  function Number(d: bv4): (n: nat)
    ensures n < 16
  {
    d as int
  }

  function Up(d: nat, rest: nat): nat {
    d + 16 * rest
  }

  /** A word of eight digits, the lowest first. */
  function Join(d0: nat, d1: nat, d2: nat, d3: nat, d4: nat, d5: nat, d6: nat, d7: nat): nat {
    Up(d0, Up(d1, Up(d2, Up(d3, Up(d4, Up(d5, Up(d6, Up(d7, 0))))))))
  }

  /** The word that a vector stands for, by its bytes. */
  function Val(x: bv32): Word {
    ByBytes(x);
    Byte0(x) + 0x100 * Byte1(x) + 0x1_0000 * Byte2(x) + 0x100_0000 * Byte3(x)
  }

  function Byte0(x: bv32): int { (x & 0xFF) as int }
  function Byte1(x: bv32): int { ((x >> 8) & 0xFF) as int }
  function Byte2(x: bv32): int { ((x >> 16) & 0xFF) as int }
  function Byte3(x: bv32): int { ((x >> 24) & 0xFF) as int }

  lemma ByteIsTwoDigits(x: bv32)
    requires x <= 0xFF
    ensures x as int == (x & 0xF) as bv4 as int + 16 * (((x >> 4) & 0xF) as bv4 as int)
  {
  }

  lemma Byte0Digits(x: bv32)
    ensures Byte0(x) == Number(D0(x)) + 16 * Number(D1(x))
  {
    ByteIsTwoDigits(x & 0xFF);
  }

  lemma Byte1Digits(x: bv32)
    ensures Byte1(x) == Number(D2(x)) + 16 * Number(D3(x))
  {
    ByteIsTwoDigits((x >> 8) & 0xFF);
  }

  lemma Byte2Digits(x: bv32)
    ensures Byte2(x) == Number(D4(x)) + 16 * Number(D5(x))
  {
    ByteIsTwoDigits((x >> 16) & 0xFF);
  }

  lemma Byte3Digits(x: bv32)
    ensures Byte3(x) == Number(D6(x)) + 16 * Number(D7(x))
  {
    ByteIsTwoDigits((x >> 24) & 0xFF);
  }

  lemma ByBytes(x: bv32)
    ensures Byte0(x) + 0x100 * Byte1(x) + 0x1_0000 * Byte2(x) + 0x100_0000 * Byte3(x)
      == Join(Number(D0(x)), Number(D1(x)), Number(D2(x)), Number(D3(x)), Number(D4(x)), Number(D5(x)), Number(D6(x)), Number(D7(x))) < UNSIGNED_INT
  {
    hide Byte0, Byte1, Byte2, Byte3, Number, D0, D1, D2, D3, D4, D5, D6, D7;
    Byte0Digits(x);
    Byte1Digits(x);
    Byte2Digits(x);
    Byte3Digits(x);
  }

  lemma ValIs(x: bv32)
    ensures Val(x) == Join(Number(D0(x)), Number(D1(x)), Number(D2(x)), Number(D3(x)), Number(D4(x)), Number(D5(x)), Number(D6(x)), Number(D7(x)))
  {
    hide Join, Number, Byte0, Byte1, Byte2, Byte3, D0, D1, D2, D3, D4, D5, D6, D7;
    ByBytes(x);
  }

  // ----- bit operations -----------------------------------------------------------------------------------

  function OnDigits(op: Op, b: bv4, c: bv4): bv4 {
    match op
    case Conjunction => b & c
    case Disjunction => b | c
    case Exclusion => b ^ c
  }

  function Half(b: bv4): bv4 {
    b >> 1
  }

  predicate Odd(b: bv4) {
    b & 1 == 1
  }

  lemma Halves(b: bv4)
    ensures Number(b) == 2 * Number(Half(b)) + if Odd(b) then 1 else 0
  {
    assert b as int == 2 * ((b >> 1) as int) + (b & 1) as int;
    assert b & 1 == 0 || b & 1 == 1;
  }

  lemma HalvesOf(op: Op, b: bv4, c: bv4)
    ensures Half(OnDigits(op, b, c)) == OnDigits(op, Half(b), Half(c))
    ensures Odd(OnDigits(op, b, c)) == Apply(op, Odd(b), Odd(c))
  {
    assert b & 1 == 0 || b & 1 == 1;
    assert c & 1 == 0 || c & 1 == 1;
    assert OnDigits(op, b, c) & 1 == OnDigits(op, b & 1, c & 1);
  }

  function BitOf(op: Op, b: bv4, c: bv4): nat {
    if Apply(op, Odd(b), Odd(c)) then 1 else 0
  }

  lemma CombineHalf(op: Op, b: bv4, c: bv4, x: nat, y: nat, n: nat)
    ensures Combine(op, Number(b) + 2 * x, Number(c) + 2 * y, n + 1)
      == BitOf(op, b, c) + 2 * Combine(op, Number(Half(b)) + x, Number(Half(c)) + y, n)
  {
    hide Number, Half, Odd, Power2;
    Halves(b);
    Halves(c);
  }

  lemma CombineQuarter(op: Op, b: bv4, c: bv4, x: nat, y: nat, n: nat)
    ensures Combine(op, Number(b) + 4 * x, Number(c) + 4 * y, n + 2)
      == BitOf(op, b, c) + 2 * BitOf(op, Half(b), Half(c)) + 4 * Combine(op, Number(Half(Half(b))) + x, Number(Half(Half(c))) + y, n)
  {
    hide Number, Half, BitOf, Power2, Combine;
    CombineHalf(op, b, c, 2 * x, 2 * y, n + 1);
    CombineHalf(op, Half(b), Half(c), x, y, n);
  }

  lemma FourBits(op: Op, b: bv4, c: bv4)
    ensures Number(OnDigits(op, b, c)) == BitOf(op, b, c) + 2 * BitOf(op, Half(b), Half(c))
      + 4 * BitOf(op, Half(Half(b)), Half(Half(c))) + 8 * BitOf(op, Half(Half(Half(b))), Half(Half(Half(c))))
  {
    hide Number, Half, Odd, OnDigits;
    var d := OnDigits(op, b, c);
    HalvesOf(op, b, c);
    HalvesOf(op, Half(b), Half(c));
    HalvesOf(op, Half(Half(b)), Half(Half(c)));
    HalvesOf(op, Half(Half(Half(b))), Half(Half(Half(c))));
    Halves(d);
    Halves(Half(d));
    Halves(Half(Half(d)));
    Halves(Half(Half(Half(d))));
    FourHalves(d);
  }

  lemma FourHalves(b: bv4)
    ensures Number(Half(Half(Half(Half(b))))) == 0
  {
    hide Number, Half, Odd;
    Halves(b);
    Halves(Half(b));
    Halves(Half(Half(b)));
    Halves(Half(Half(Half(b))));
  }

  /** Four bits of each, before any number of others. */
  lemma CombineDigit(op: Op, b: bv4, c: bv4, x: nat, y: nat, n: nat)
    ensures Combine(op, Number(b) + 16 * x, Number(c) + 16 * y, n + 4) == Number(OnDigits(op, b, c)) + 16 * Combine(op, x, y, n)
  {
    hide Number, Half, OnDigits, BitOf, Power2, Combine;
    CombineQuarter(op, b, c, 4 * x, 4 * y, n + 2);
    CombineQuarter(op, Half(Half(b)), Half(Half(c)), x, y, n);
    FourBits(op, b, c);
    FourHalves(b);
    FourHalves(c);
  }

  lemma CombineUp(op: Op, b: bv4, c: bv4, x: nat, y: nat, n: nat)
    ensures Combine(op, Up(Number(b), x), Up(Number(c), y), n + 4) == Up(Number(OnDigits(op, b, c)), Combine(op, x, y, n))
  {
    hide Number, OnDigits, Combine, Power2;
    CombineDigit(op, b, c, x, y, n);
  }

  lemma CombineNone(op: Op)
    ensures Combine(op, 0, 0, 0) == 0
  {
  }

  /** An operation on words is that on their digits. */
  lemma CombineDigits(op: Op, x: bv32, y: bv32, z: bv32)
    requires D0(z) == OnDigits(op, D0(x), D0(y))
    requires D1(z) == OnDigits(op, D1(x), D1(y))
    requires D2(z) == OnDigits(op, D2(x), D2(y))
    requires D3(z) == OnDigits(op, D3(x), D3(y))
    requires D4(z) == OnDigits(op, D4(x), D4(y))
    requires D5(z) == OnDigits(op, D5(x), D5(y))
    requires D6(z) == OnDigits(op, D6(x), D6(y))
    requires D7(z) == OnDigits(op, D7(x), D7(y))
    ensures Combine(op, Val(x), Val(y), 32) == Val(z)
  {
    hide Number, OnDigits, Combine, Val, Join, Power2, D0, D1, D2, D3, D4, D5, D6, D7;
    ValIs(x);
    ValIs(y);
    ValIs(z);
    CombineJoin(op, D0(x), D1(x), D2(x), D3(x), D4(x), D5(x), D6(x), D7(x),
      D0(y), D1(y), D2(y), D3(y), D4(y), D5(y), D6(y), D7(y));
  }

  lemma CombineJoin(op: Op, x0: bv4, x1: bv4, x2: bv4, x3: bv4, x4: bv4, x5: bv4, x6: bv4, x7: bv4,
      y0: bv4, y1: bv4, y2: bv4, y3: bv4, y4: bv4, y5: bv4, y6: bv4, y7: bv4)
    ensures Combine(op, Join(Number(x0), Number(x1), Number(x2), Number(x3), Number(x4), Number(x5), Number(x6), Number(x7)),
        Join(Number(y0), Number(y1), Number(y2), Number(y3), Number(y4), Number(y5), Number(y6), Number(y7)), 32)
      == Join(Number(OnDigits(op, x0, y0)), Number(OnDigits(op, x1, y1)), Number(OnDigits(op, x2, y2)), Number(OnDigits(op, x3, y3)), Number(OnDigits(op, x4, y4)), Number(OnDigits(op, x5, y5)), Number(OnDigits(op, x6, y6)), Number(OnDigits(op, x7, y7)))
  {
    hide Number, OnDigits, Combine, Power2, Up;
    CombineNone(op);
    CombineUp(op, x7, y7, 0, 0, 0);
    var u7, v7 := Up(Number(x7), 0), Up(Number(y7), 0);
    CombineUp(op, x6, y6, u7, v7, 4);
    var u6, v6 := Up(Number(x6), u7), Up(Number(y6), v7);
    CombineUp(op, x5, y5, u6, v6, 8);
    var u5, v5 := Up(Number(x5), u6), Up(Number(y5), v6);
    CombineUp(op, x4, y4, u5, v5, 12);
    var u4, v4 := Up(Number(x4), u5), Up(Number(y4), v5);
    CombineUp(op, x3, y3, u4, v4, 16);
    var u3, v3 := Up(Number(x3), u4), Up(Number(y3), v4);
    CombineUp(op, x2, y2, u3, v3, 20);
    var u2, v2 := Up(Number(x2), u3), Up(Number(y2), v3);
    CombineUp(op, x1, y1, u2, v2, 24);
    var u1, v1 := Up(Number(x1), u2), Up(Number(y1), v2);
    CombineUp(op, x0, y0, u1, v1, 28);
  }

  lemma AndDigits(x: bv32, y: bv32)
    ensures D0(x & y) == D0(x) & D0(y)
    ensures D1(x & y) == D1(x) & D1(y)
    ensures D2(x & y) == D2(x) & D2(y)
    ensures D3(x & y) == D3(x) & D3(y)
    ensures D4(x & y) == D4(x) & D4(y)
    ensures D5(x & y) == D5(x) & D5(y)
    ensures D6(x & y) == D6(x) & D6(y)
    ensures D7(x & y) == D7(x) & D7(y)
  {
  }

  lemma AndDigit(b: bv4, c: bv4)
    ensures OnDigits(Conjunction, b, c) == b & c
  {
  }

  lemma AndVectors(x: bv32, y: bv32)
    ensures And(Val(x), Val(y)) == Val(AndOf(x, y))
  {
    hide Combine, Val, OnDigits, D0, D1, D2, D3, D4, D5, D6, D7;
    AndDigitsOf(x, y);
    CombineDigits(Conjunction, x, y, AndOf(x, y));
  }

  function AndOf(x: bv32, y: bv32): bv32 {
    x & y
  }

  lemma AndDigitsOf(x: bv32, y: bv32)
    ensures D0(AndOf(x, y)) == OnDigits(Conjunction, D0(x), D0(y))
    ensures D1(AndOf(x, y)) == OnDigits(Conjunction, D1(x), D1(y))
    ensures D2(AndOf(x, y)) == OnDigits(Conjunction, D2(x), D2(y))
    ensures D3(AndOf(x, y)) == OnDigits(Conjunction, D3(x), D3(y))
    ensures D4(AndOf(x, y)) == OnDigits(Conjunction, D4(x), D4(y))
    ensures D5(AndOf(x, y)) == OnDigits(Conjunction, D5(x), D5(y))
    ensures D6(AndOf(x, y)) == OnDigits(Conjunction, D6(x), D6(y))
    ensures D7(AndOf(x, y)) == OnDigits(Conjunction, D7(x), D7(y))
  {
    hide OnDigits, D0, D1, D2, D3, D4, D5, D6, D7;
    AndDigits(x, y);
    AndDigit(D0(x), D0(y));
    AndDigit(D1(x), D1(y));
    AndDigit(D2(x), D2(y));
    AndDigit(D3(x), D3(y));
    AndDigit(D4(x), D4(y));
    AndDigit(D5(x), D5(y));
    AndDigit(D6(x), D6(y));
    AndDigit(D7(x), D7(y));
  }

  lemma OrDigits(x: bv32, y: bv32)
    ensures D0(x | y) == D0(x) | D0(y)
    ensures D1(x | y) == D1(x) | D1(y)
    ensures D2(x | y) == D2(x) | D2(y)
    ensures D3(x | y) == D3(x) | D3(y)
    ensures D4(x | y) == D4(x) | D4(y)
    ensures D5(x | y) == D5(x) | D5(y)
    ensures D6(x | y) == D6(x) | D6(y)
    ensures D7(x | y) == D7(x) | D7(y)
  {
  }

  lemma OrDigit(b: bv4, c: bv4)
    ensures OnDigits(Disjunction, b, c) == b | c
  {
  }

  lemma OrVectors(x: bv32, y: bv32)
    ensures Or(Val(x), Val(y)) == Val(OrOf(x, y))
  {
    hide Combine, Val, OnDigits, D0, D1, D2, D3, D4, D5, D6, D7;
    OrDigitsOf(x, y);
    CombineDigits(Disjunction, x, y, OrOf(x, y));
  }

  function OrOf(x: bv32, y: bv32): bv32 {
    x | y
  }

  lemma OrDigitsOf(x: bv32, y: bv32)
    ensures D0(OrOf(x, y)) == OnDigits(Disjunction, D0(x), D0(y))
    ensures D1(OrOf(x, y)) == OnDigits(Disjunction, D1(x), D1(y))
    ensures D2(OrOf(x, y)) == OnDigits(Disjunction, D2(x), D2(y))
    ensures D3(OrOf(x, y)) == OnDigits(Disjunction, D3(x), D3(y))
    ensures D4(OrOf(x, y)) == OnDigits(Disjunction, D4(x), D4(y))
    ensures D5(OrOf(x, y)) == OnDigits(Disjunction, D5(x), D5(y))
    ensures D6(OrOf(x, y)) == OnDigits(Disjunction, D6(x), D6(y))
    ensures D7(OrOf(x, y)) == OnDigits(Disjunction, D7(x), D7(y))
  {
    hide OnDigits, D0, D1, D2, D3, D4, D5, D6, D7;
    OrDigits(x, y);
    OrDigit(D0(x), D0(y));
    OrDigit(D1(x), D1(y));
    OrDigit(D2(x), D2(y));
    OrDigit(D3(x), D3(y));
    OrDigit(D4(x), D4(y));
    OrDigit(D5(x), D5(y));
    OrDigit(D6(x), D6(y));
    OrDigit(D7(x), D7(y));
  }

  lemma XorDigits(x: bv32, y: bv32)
    ensures D0(x ^ y) == D0(x) ^ D0(y)
    ensures D1(x ^ y) == D1(x) ^ D1(y)
    ensures D2(x ^ y) == D2(x) ^ D2(y)
    ensures D3(x ^ y) == D3(x) ^ D3(y)
    ensures D4(x ^ y) == D4(x) ^ D4(y)
    ensures D5(x ^ y) == D5(x) ^ D5(y)
    ensures D6(x ^ y) == D6(x) ^ D6(y)
    ensures D7(x ^ y) == D7(x) ^ D7(y)
  {
  }

  lemma XorDigit(b: bv4, c: bv4)
    ensures OnDigits(Exclusion, b, c) == b ^ c
  {
  }

  lemma XorVectors(x: bv32, y: bv32)
    ensures Xor(Val(x), Val(y)) == Val(XorOf(x, y))
  {
    hide Combine, Val, OnDigits, D0, D1, D2, D3, D4, D5, D6, D7;
    XorDigitsOf(x, y);
    CombineDigits(Exclusion, x, y, XorOf(x, y));
  }

  function XorOf(x: bv32, y: bv32): bv32 {
    x ^ y
  }

  lemma XorDigitsOf(x: bv32, y: bv32)
    ensures D0(XorOf(x, y)) == OnDigits(Exclusion, D0(x), D0(y))
    ensures D1(XorOf(x, y)) == OnDigits(Exclusion, D1(x), D1(y))
    ensures D2(XorOf(x, y)) == OnDigits(Exclusion, D2(x), D2(y))
    ensures D3(XorOf(x, y)) == OnDigits(Exclusion, D3(x), D3(y))
    ensures D4(XorOf(x, y)) == OnDigits(Exclusion, D4(x), D4(y))
    ensures D5(XorOf(x, y)) == OnDigits(Exclusion, D5(x), D5(y))
    ensures D6(XorOf(x, y)) == OnDigits(Exclusion, D6(x), D6(y))
    ensures D7(XorOf(x, y)) == OnDigits(Exclusion, D7(x), D7(y))
  {
    hide OnDigits, D0, D1, D2, D3, D4, D5, D6, D7;
    XorDigits(x, y);
    XorDigit(D0(x), D0(y));
    XorDigit(D1(x), D1(y));
    XorDigit(D2(x), D2(y));
    XorDigit(D3(x), D3(y));
    XorDigit(D4(x), D4(y));
    XorDigit(D5(x), D5(y));
    XorDigit(D6(x), D6(y));
    XorDigit(D7(x), D7(y));
  }

  function NotOf(x: bv32): bv32 {
    !x
  }

  lemma NotDigits(x: bv32)
    ensures D0(!x) == !D0(x)
    ensures D1(!x) == !D1(x)
    ensures D2(!x) == !D2(x)
    ensures D3(!x) == !D3(x)
    ensures D4(!x) == !D4(x)
    ensures D5(!x) == !D5(x)
    ensures D6(!x) == !D6(x)
    ensures D7(!x) == !D7(x)
  {
  }

  lemma NotDigit(b: bv4)
    ensures Number(!b) == 15 - Number(b)
  {
  }

  lemma NotNumbers(x: bv32)
    ensures Number(D0(NotOf(x))) == 15 - Number(D0(x))
    ensures Number(D1(NotOf(x))) == 15 - Number(D1(x))
    ensures Number(D2(NotOf(x))) == 15 - Number(D2(x))
    ensures Number(D3(NotOf(x))) == 15 - Number(D3(x))
    ensures Number(D4(NotOf(x))) == 15 - Number(D4(x))
    ensures Number(D5(NotOf(x))) == 15 - Number(D5(x))
    ensures Number(D6(NotOf(x))) == 15 - Number(D6(x))
    ensures Number(D7(NotOf(x))) == 15 - Number(D7(x))
  {
    hide Number, D0, D1, D2, D3, D4, D5, D6, D7;
    NotDigits(x);
    NotDigit(D0(x));
    NotDigit(D1(x));
    NotDigit(D2(x));
    NotDigit(D3(x));
    NotDigit(D4(x));
    NotDigit(D5(x));
    NotDigit(D6(x));
    NotDigit(D7(x));
  }

  lemma NotVector(x: bv32)
    ensures Not(Val(x)) == Val(NotOf(x))
  {
    hide Number, NotOf, Val, D0, D1, D2, D3, D4, D5, D6, D7;
    NotNumbers(x);
    ValIs(x);
    ValIs(NotOf(x));
  }

  // ----- addition -----------------------------------------------------------------------------------------

  function Plus(x: bv32, y: bv32): bv32 {
    x + y
  }

  function Sum(b: bv4, c: bv4, carry: bool): bv4 {
    if carry then b + c + 1 else b + c
  }

  predicate Over(b: bv4, c: bv4, carry: bool) {
    if carry then b + c + 1 <= b else b + c < b
  }

  function One(carry: bool): nat {
    if carry then 1 else 0
  }

  lemma DigitsAdd(b: bv4, c: bv4, carry: bool)
    ensures Number(Sum(b, c, carry)) + 16 * One(Over(b, c, carry)) == Number(b) + Number(c) + One(carry)
  {
    assert !carry ==> (b + c) as int == b as int + c as int - if b + c < b then 16 else 0;
    assert carry ==> (b + c + 1) as int == b as int + c as int + 1 - if b + c + 1 <= b then 16 else 0;
  }

  predicate C1(x: bv32, y: bv32) { ((x + y) ^ x ^ y) & 0x10 != 0 }
  predicate C2(x: bv32, y: bv32) { ((x + y) ^ x ^ y) & 0x100 != 0 }
  predicate C3(x: bv32, y: bv32) { ((x + y) ^ x ^ y) & 0x1000 != 0 }
  predicate C4(x: bv32, y: bv32) { ((x + y) ^ x ^ y) & 0x10000 != 0 }
  predicate C5(x: bv32, y: bv32) { ((x + y) ^ x ^ y) & 0x100000 != 0 }
  predicate C6(x: bv32, y: bv32) { ((x + y) ^ x ^ y) & 0x1000000 != 0 }
  predicate C7(x: bv32, y: bv32) { ((x + y) ^ x ^ y) & 0x10000000 != 0 }

  lemma Adds0(x: bv32, y: bv32)
    ensures ((x + y) & 0xF) as bv4 == (x & 0xF) as bv4 + (y & 0xF) as bv4
    ensures (((x + y) ^ x ^ y) & 0x10 != 0) == ((x & 0xF) as bv4 + (y & 0xF) as bv4 < (x & 0xF) as bv4)
  {
  }

  lemma AddsNumber0(x: bv32, y: bv32)
    ensures Number(D0(Plus(x, y))) + 16 * One(C1(x, y)) == Number(D0(x)) + Number(D0(y)) + One(false)
  {
    hide Number;
    Adds0(x, y);
    DigitsAdd(D0(x), D0(y), false);
  }

  lemma Adds1(x: bv32, y: bv32)
    ensures (((x + y) >> 4) & 0xF) as bv4 == if ((x + y) ^ x ^ y) & 0x10 != 0 then ((x >> 4) & 0xF) as bv4 + ((y >> 4) & 0xF) as bv4 + 1 else ((x >> 4) & 0xF) as bv4 + ((y >> 4) & 0xF) as bv4
    ensures (((x + y) ^ x ^ y) & 0x100 != 0) == if ((x + y) ^ x ^ y) & 0x10 != 0 then ((x >> 4) & 0xF) as bv4 + ((y >> 4) & 0xF) as bv4 + 1 <= ((x >> 4) & 0xF) as bv4 else ((x >> 4) & 0xF) as bv4 + ((y >> 4) & 0xF) as bv4 < ((x >> 4) & 0xF) as bv4
  {
  }

  lemma AddsNumber1(x: bv32, y: bv32)
    ensures Number(D1(Plus(x, y))) + 16 * One(C2(x, y)) == Number(D1(x)) + Number(D1(y)) + One(C1(x, y))
  {
    hide Number;
    Adds1(x, y);
    DigitsAdd(D1(x), D1(y), C1(x, y));
  }

  lemma Adds2(x: bv32, y: bv32)
    ensures (((x + y) >> 8) & 0xF) as bv4 == if ((x + y) ^ x ^ y) & 0x100 != 0 then ((x >> 8) & 0xF) as bv4 + ((y >> 8) & 0xF) as bv4 + 1 else ((x >> 8) & 0xF) as bv4 + ((y >> 8) & 0xF) as bv4
    ensures (((x + y) ^ x ^ y) & 0x1000 != 0) == if ((x + y) ^ x ^ y) & 0x100 != 0 then ((x >> 8) & 0xF) as bv4 + ((y >> 8) & 0xF) as bv4 + 1 <= ((x >> 8) & 0xF) as bv4 else ((x >> 8) & 0xF) as bv4 + ((y >> 8) & 0xF) as bv4 < ((x >> 8) & 0xF) as bv4
  {
  }

  lemma AddsNumber2(x: bv32, y: bv32)
    ensures Number(D2(Plus(x, y))) + 16 * One(C3(x, y)) == Number(D2(x)) + Number(D2(y)) + One(C2(x, y))
  {
    hide Number;
    Adds2(x, y);
    DigitsAdd(D2(x), D2(y), C2(x, y));
  }

  lemma Adds3(x: bv32, y: bv32)
    ensures (((x + y) >> 12) & 0xF) as bv4 == if ((x + y) ^ x ^ y) & 0x1000 != 0 then ((x >> 12) & 0xF) as bv4 + ((y >> 12) & 0xF) as bv4 + 1 else ((x >> 12) & 0xF) as bv4 + ((y >> 12) & 0xF) as bv4
    ensures (((x + y) ^ x ^ y) & 0x10000 != 0) == if ((x + y) ^ x ^ y) & 0x1000 != 0 then ((x >> 12) & 0xF) as bv4 + ((y >> 12) & 0xF) as bv4 + 1 <= ((x >> 12) & 0xF) as bv4 else ((x >> 12) & 0xF) as bv4 + ((y >> 12) & 0xF) as bv4 < ((x >> 12) & 0xF) as bv4
  {
  }

  lemma AddsNumber3(x: bv32, y: bv32)
    ensures Number(D3(Plus(x, y))) + 16 * One(C4(x, y)) == Number(D3(x)) + Number(D3(y)) + One(C3(x, y))
  {
    hide Number;
    Adds3(x, y);
    DigitsAdd(D3(x), D3(y), C3(x, y));
  }

  lemma Adds4(x: bv32, y: bv32)
    ensures (((x + y) >> 16) & 0xF) as bv4 == if ((x + y) ^ x ^ y) & 0x10000 != 0 then ((x >> 16) & 0xF) as bv4 + ((y >> 16) & 0xF) as bv4 + 1 else ((x >> 16) & 0xF) as bv4 + ((y >> 16) & 0xF) as bv4
    ensures (((x + y) ^ x ^ y) & 0x100000 != 0) == if ((x + y) ^ x ^ y) & 0x10000 != 0 then ((x >> 16) & 0xF) as bv4 + ((y >> 16) & 0xF) as bv4 + 1 <= ((x >> 16) & 0xF) as bv4 else ((x >> 16) & 0xF) as bv4 + ((y >> 16) & 0xF) as bv4 < ((x >> 16) & 0xF) as bv4
  {
  }

  lemma AddsNumber4(x: bv32, y: bv32)
    ensures Number(D4(Plus(x, y))) + 16 * One(C5(x, y)) == Number(D4(x)) + Number(D4(y)) + One(C4(x, y))
  {
    hide Number;
    Adds4(x, y);
    DigitsAdd(D4(x), D4(y), C4(x, y));
  }

  lemma Adds5(x: bv32, y: bv32)
    ensures (((x + y) >> 20) & 0xF) as bv4 == if ((x + y) ^ x ^ y) & 0x100000 != 0 then ((x >> 20) & 0xF) as bv4 + ((y >> 20) & 0xF) as bv4 + 1 else ((x >> 20) & 0xF) as bv4 + ((y >> 20) & 0xF) as bv4
    ensures (((x + y) ^ x ^ y) & 0x1000000 != 0) == if ((x + y) ^ x ^ y) & 0x100000 != 0 then ((x >> 20) & 0xF) as bv4 + ((y >> 20) & 0xF) as bv4 + 1 <= ((x >> 20) & 0xF) as bv4 else ((x >> 20) & 0xF) as bv4 + ((y >> 20) & 0xF) as bv4 < ((x >> 20) & 0xF) as bv4
  {
  }

  lemma AddsNumber5(x: bv32, y: bv32)
    ensures Number(D5(Plus(x, y))) + 16 * One(C6(x, y)) == Number(D5(x)) + Number(D5(y)) + One(C5(x, y))
  {
    hide Number;
    Adds5(x, y);
    DigitsAdd(D5(x), D5(y), C5(x, y));
  }

  lemma Adds6(x: bv32, y: bv32)
    ensures (((x + y) >> 24) & 0xF) as bv4 == if ((x + y) ^ x ^ y) & 0x1000000 != 0 then ((x >> 24) & 0xF) as bv4 + ((y >> 24) & 0xF) as bv4 + 1 else ((x >> 24) & 0xF) as bv4 + ((y >> 24) & 0xF) as bv4
    ensures (((x + y) ^ x ^ y) & 0x10000000 != 0) == if ((x + y) ^ x ^ y) & 0x1000000 != 0 then ((x >> 24) & 0xF) as bv4 + ((y >> 24) & 0xF) as bv4 + 1 <= ((x >> 24) & 0xF) as bv4 else ((x >> 24) & 0xF) as bv4 + ((y >> 24) & 0xF) as bv4 < ((x >> 24) & 0xF) as bv4
  {
  }

  lemma AddsNumber6(x: bv32, y: bv32)
    ensures Number(D6(Plus(x, y))) + 16 * One(C7(x, y)) == Number(D6(x)) + Number(D6(y)) + One(C6(x, y))
  {
    hide Number;
    Adds6(x, y);
    DigitsAdd(D6(x), D6(y), C6(x, y));
  }

  lemma Adds7(x: bv32, y: bv32)
    ensures (((x + y) >> 28) & 0xF) as bv4 == if ((x + y) ^ x ^ y) & 0x10000000 != 0 then ((x >> 28) & 0xF) as bv4 + ((y >> 28) & 0xF) as bv4 + 1 else ((x >> 28) & 0xF) as bv4 + ((y >> 28) & 0xF) as bv4
  {
  }

  lemma AddsNumber7(x: bv32, y: bv32)
    ensures Number(D7(Plus(x, y))) + 16 * One(Over(D7(x), D7(y), C7(x, y))) == Number(D7(x)) + Number(D7(y)) + One(C7(x, y))
  {
    hide Number;
    Adds7(x, y);
    DigitsAdd(D7(x), D7(y), C7(x, y));
  }

  /** Addition of words is that of their digits, with carries. */
  lemma AddVectors(x: bv32, y: bv32)
    ensures Add(Val(x), Val(y)) == Val(Plus(x, y))
  {
    hide Number, Val, Plus, Over, D0, D1, D2, D3, D4, D5, D6, D7, C1, C2, C3, C4, C5, C6, C7;
    AddsNumber0(x, y);
    AddsNumber1(x, y);
    AddsNumber2(x, y);
    AddsNumber3(x, y);
    AddsNumber4(x, y);
    AddsNumber5(x, y);
    AddsNumber6(x, y);
    AddsNumber7(x, y);
    ValIs(x);
    ValIs(y);
    ValIs(Plus(x, y));
    SumWraps(Val(x), Val(y), Val(Plus(x, y)), One(Over(D7(x), D7(y), C7(x, y))));
  }

  lemma SumWraps(x: Word, y: Word, s: Word, over: nat)
    requires s + over * UNSIGNED_INT == x + y
    ensures Add(x, y) == s
  {
  }

  // ----- rotation -----------------------------------------------------------------------------------------

  function Turn1(x: bv32): bv32 { (x << 1) | (x >> 31) }
  function Turn2(x: bv32): bv32 { (x << 2) | (x >> 30) }
  function Turn4(x: bv32): bv32 { (x << 4) | (x >> 28) }
  function Turn8(x: bv32): bv32 { (x << 8) | (x >> 24) }
  function Turn16(x: bv32): bv32 { (x << 16) | (x >> 16) }

  lemma Twice2(x: bv32)
    ensures Turn2(x) == Turn1(Turn1(x))
  {
    assert (x << 2) | (x >> 30) == (((x << 1) | (x >> 31)) << 1) | (((x << 1) | (x >> 31)) >> 31);
  }

  lemma Twice4(x: bv32)
    ensures Turn4(x) == Turn2(Turn2(x))
  {
    assert (x << 4) | (x >> 28) == (((x << 2) | (x >> 30)) << 2) | (((x << 2) | (x >> 30)) >> 30);
  }

  lemma Twice8(x: bv32)
    ensures Turn8(x) == Turn4(Turn4(x))
  {
    assert (x << 8) | (x >> 24) == (((x << 4) | (x >> 28)) << 4) | (((x << 4) | (x >> 28)) >> 28);
  }

  lemma Twice16(x: bv32)
    ensures Turn16(x) == Turn8(Turn8(x))
  {
    assert (x << 16) | (x >> 16) == (((x << 8) | (x >> 24)) << 8) | (((x << 8) | (x >> 24)) >> 24);
  }

  lemma Doubled(x: bv32)
    ensures x + x == x << 1
  {
  }

  lemma LowDigitTurned(x: bv32)
    ensures (((x << 1) | (x >> 31)) & 0xF) as bv4 == if ((x >> 28) & 0xF) as bv4 >= 8 then ((x << 1) & 0xF) as bv4 | 1 else ((x << 1) & 0xF) as bv4
    ensures ((x << 1) & 0xF) as bv4 & 1 == 0
  {
  }

  lemma OtherDigitsTurned(x: bv32)
    ensures ((((x << 1) | (x >> 31)) >> 4) & 0xF) as bv4 == (((x << 1) >> 4) & 0xF) as bv4
    ensures ((((x << 1) | (x >> 31)) >> 8) & 0xF) as bv4 == (((x << 1) >> 8) & 0xF) as bv4
    ensures ((((x << 1) | (x >> 31)) >> 12) & 0xF) as bv4 == (((x << 1) >> 12) & 0xF) as bv4
    ensures ((((x << 1) | (x >> 31)) >> 16) & 0xF) as bv4 == (((x << 1) >> 16) & 0xF) as bv4
    ensures ((((x << 1) | (x >> 31)) >> 20) & 0xF) as bv4 == (((x << 1) >> 20) & 0xF) as bv4
    ensures ((((x << 1) | (x >> 31)) >> 24) & 0xF) as bv4 == (((x << 1) >> 24) & 0xF) as bv4
    ensures ((((x << 1) | (x >> 31)) >> 28) & 0xF) as bv4 == (((x << 1) >> 28) & 0xF) as bv4
  {
  }

  lemma Turn1Digits(x: bv32)
    ensures D0(Turn1(x)) == if D7(x) >= 8 then D0(Plus(x, x)) | 1 else D0(Plus(x, x))
    ensures D0(Plus(x, x)) & 1 == 0
    ensures D1(Turn1(x)) == D1(Plus(x, x))
    ensures D2(Turn1(x)) == D2(Plus(x, x))
    ensures D3(Turn1(x)) == D3(Plus(x, x))
    ensures D4(Turn1(x)) == D4(Plus(x, x))
    ensures D5(Turn1(x)) == D5(Plus(x, x))
    ensures D6(Turn1(x)) == D6(Plus(x, x))
    ensures D7(Turn1(x)) == D7(Plus(x, x))
  {
    Doubled(x);
    LowDigitTurned(x);
    OtherDigitsTurned(x);
  }

  lemma LowBit(d: bv4)
    ensures d & 1 == 0 ==> Number(d | 1) == Number(d) + 1
  {
  }

  lemma HighBit(d: bv4)
    ensures Number(d) >= 8 <==> d >= 8
  {
  }

  lemma Turn1Numbers(x: bv32)
    ensures Val(Turn1(x)) == Val(Plus(x, x)) + if Number(D7(x)) >= 8 then 1 else 0
  {
    hide Number, Turn1, Val, Plus, D0, D1, D2, D3, D4, D5, D6, D7;
    Turn1Digits(x);
    LowBit(D0(Plus(x, x)));
    HighBit(D7(x));
    ValIs(Plus(x, x));
    ValIs(Turn1(x));
  }

  lemma TopDigit(x: bv32)
    ensures Number(D7(x)) >= 8 <==> Val(x) >= 0x8000_0000
  {
    hide Number, Val, D0, D1, D2, D3, D4, D5, D6, D7;
    ValIs(x);
  }

  lemma Turn1Is(x: bv32)
    ensures Val(Turn1(x)) == RotateLeft(Val(x), 1)
  {
    hide Number, Turn1, Val, Plus, RotateLeft, D0, D1, D2, D3, D4, D5, D6, D7;
    Turn1Numbers(x);
    AddVectors(x, x);
    TopDigit(x);
    RotateOne(Val(x));
  }

  lemma PowersAre()
    ensures Power2(0) == 1 && Power2(1) == 2 && Power2(31) == 0x8000_0000 && Power2(32) == UNSIGNED_INT
  {
    Power32();
    PowerNext(31);
  }

  lemma PowerNext(n: nat)
    ensures Power2(n + 1) == 2 * Power2(n)
  {
  }

  /** A rotation by its two parts. */
  lemma RotateAs(w: Word, n: nat, p: nat, q: nat)
    requires n <= 32 && Power2(n) == p && Power2(32 - n) == q
    ensures RotateLeft(w, n) == w % q * p + w / q
  {
    hide Power2, ShiftLeft, ShiftRight;
    RotateFits(w, n);
    RotateIs(w, n);
    ShiftRightIs(w, 32 - n);
  }

  lemma ShiftRightIs(x: Word, n: nat)
    ensures ShiftRight(x, n) == x / Power2(n)
  {
    hide Power2;
  }

  lemma RotateOne(w: Word)
    ensures RotateLeft(w, 1) == Add(w, w) + if w >= 0x8000_0000 then 1 else 0
  {
    hide Power2, RotateLeft;
    PowersAre();
    RotateAs(w, 1, 2, 0x8000_0000);
  }

  lemma PowerParts(n: nat) returns (p: nat, q: nat)
    requires n < 32
    ensures Power2(n) == p && Power2(32 - n) == 2 * q && Power2(n + 1) == 2 * p && Power2(32 - (n + 1)) == q
    ensures p > 0 && q > 0 && p * q == 0x8000_0000
  {
    hide Power2;
    p, q := Power2(n), Power2(31 - n);
    PowerNext(n);
    PowerNext(31 - n);
    Power2Splits(n, 31 - n);
    PowersAre();
  }

  /** Rotating once more: the highest bit of what is left comes in at the low end. */
  lemma RotateMore(w: Word, n: nat)
    requires n < 32
    ensures RotateLeft(RotateLeft(w, n), 1) == RotateLeft(w, n + 1)
  {
    hide Power2, RotateLeft;
    var p, q := PowerParts(n);
    var h, t, m := Parts(w, p, q);
    RotatedOnce(w, n, p, q, h, t, m);
    RotatedTwice(w, n, p, q, h, t, m);
    Room(m, p, q);
    RotateOne(RotateLeft(w, n));
    Moved(Product(m, p), p, h, t, RotateLeft(w, n), RotateLeft(w, n + 1));
  }

  function Product(m: nat, p: nat): nat {
    m * p
  }

  /** The word in two halves of the powers, and the bit between them. */
  lemma Parts(w: Word, p: nat, q: nat) returns (h: nat, t: nat, m: nat)
    requires q > 0 && p * q == 0x8000_0000
    ensures h == w / (2 * q) && m + t * q == w % (2 * q) && w / q == 2 * h + t && w % q == m
    ensures t <= 1 && m < q && h < p
  {
    var l := w % (2 * q);
    h := w / (2 * q);
    t := if l >= q then 1 else 0;
    m := l - t * q;
    Halved(w, q, h, l, t, m);
    Below(w, h, p, q);
  }

  lemma Halved(w: nat, q: nat, h: nat, l: nat, t: nat, m: nat)
    requires q > 0 && h == w / (2 * q) && l == w % (2 * q) && t == (if l >= q then 1 else 0) && m == l - t * q
    ensures w / q == 2 * h + t && w % q == m < q && l == m + t * q
  {
    Division(w, 2 * q);
    Regrouped(h, q, t, m);
    Quotient(2 * h + t, m, q);
  }

  lemma Regrouped(h: nat, q: nat, t: nat, m: nat)
    ensures h * (2 * q) + t * q + m == (2 * h + t) * q + m
  {
  }

  lemma Below(w: nat, h: nat, p: nat, q: nat)
    requires w < UNSIGNED_INT && p * q == 0x8000_0000 && q > 0 && h == w / (2 * q)
    ensures h < p
  {
    Division(w, 2 * q);
    assert p * (2 * q) == 2 * (p * q);
    if h >= p {
      Times(p, h, 2 * q);
    }
  }

  lemma RotatedOnce(w: Word, n: nat, p: nat, q: nat, h: nat, t: nat, m: nat)
    requires n < 32 && Power2(n) == p && Power2(32 - n) == 2 * q && p * q == 0x8000_0000 && q > 0
    requires h == w / (2 * q) && m + t * q == w % (2 * q)
    ensures RotateLeft(w, n) == Product(m, p) + t * 0x8000_0000 + h
  {
    hide Power2, RotateLeft;
    RotateAs(w, n, p, 2 * q);
    LowPart(w % (2 * q), t, m, p, q);
  }

  lemma LowPart(l: nat, t: nat, m: nat, p: nat, q: nat)
    requires l == m + t * q && p * q == 0x8000_0000
    ensures l * p == Product(m, p) + t * 0x8000_0000
  {
    Distribute(t, q, m, p);
    assert q * p == p * q;
  }

  lemma RotatedTwice(w: Word, n: nat, p: nat, q: nat, h: nat, t: nat, m: nat)
    requires n < 32 && Power2(n + 1) == 2 * p && Power2(32 - (n + 1)) == q && q > 0
    requires w / q == 2 * h + t && w % q == m
    ensures RotateLeft(w, n + 1) == 2 * Product(m, p) + 2 * h + t
  {
    hide Power2, RotateLeft;
    RotateAs(w, n + 1, 2 * p, q);
    assert m * (2 * p) == 2 * (m * p);
  }

  lemma Room(m: nat, p: nat, q: nat)
    requires m < q && p * q == 0x8000_0000
    ensures Product(m, p) + p <= 0x8000_0000
  {
    Times(m, q - 1, p);
    Less(q, p);
  }

  lemma Moved(x: nat, p: nat, h: nat, t: nat, r: nat, s: nat)
    requires x + p <= 0x8000_0000 && h < p && t <= 1
    requires r == x + t * 0x8000_0000 + h && s == 2 * x + 2 * h + t
    ensures s == if r >= 0x8000_0000 then 2 * r + 1 - UNSIGNED_INT else 2 * r
  {
  }

  function TurnMany(x: bv32, n: nat): bv32 {
    if n == 0 then x else Turn1(TurnMany(x, n - 1))
  }

  lemma {:induction false} TurnManyIs(x: bv32, n: nat)
    requires n <= 32
    ensures Val(TurnMany(x, n)) == RotateLeft(Val(x), n)
  {
    hide Val, Turn1, RotateLeft;
    if n == 0 {
      RotateNone(Val(x));
    } else {
      TurnManyIs(x, n - 1);
      Turn1Is(TurnMany(x, n - 1));
      RotateMore(Val(x), n - 1);
    }
  }

  lemma RotateNone(w: Word)
    ensures RotateLeft(w, 0) == w
  {
    hide Power2, RotateLeft;
    PowersAre();
    RotateAs(w, 0, 1, UNSIGNED_INT);
  }

  lemma {:induction false} TurnManyMore(x: bv32, m: nat, n: nat)
    ensures TurnMany(TurnMany(x, m), n) == TurnMany(x, m + n)
  {
    hide Turn1;
    if n > 0 {
      TurnManyMore(x, m, n - 1);
    }
  }

  lemma TurnManyOne(x: bv32)
    ensures TurnMany(x, 0) == x && TurnMany(x, 1) == Turn1(x)
  {
    hide Turn1;
    assert TurnMany(x, 1) == Turn1(TurnMany(x, 0));
  }

  lemma TurnMany2(x: bv32)
    ensures TurnMany(x, 2) == Turn2(x)
  {
    hide TurnMany, Turn2, Turn1;
    TurnManyOne(x);
    TurnManyOne(Turn1(x));
    Twice2(x);
    TurnManyMore(x, 1, 1);
  }

  lemma TurnMany4(x: bv32)
    ensures TurnMany(x, 4) == Turn4(x)
  {
    hide TurnMany, Turn4, Turn2;
    TurnMany2(x);
    TurnMany2(Turn2(x));
    Twice4(x);
    TurnManyMore(x, 2, 2);
  }

  lemma TurnMany8(x: bv32)
    ensures TurnMany(x, 8) == Turn8(x)
  {
    hide TurnMany, Turn8, Turn4;
    TurnMany4(x);
    TurnMany4(Turn4(x));
    Twice8(x);
    TurnManyMore(x, 4, 4);
  }

  lemma TurnMany16(x: bv32)
    ensures TurnMany(x, 16) == Turn16(x)
  {
    hide TurnMany, Turn16, Turn8;
    TurnMany8(x);
    TurnMany8(Turn8(x));
    Twice16(x);
    TurnManyMore(x, 8, 8);
  }

  /** The rotations of the rounds. */
  function Turned(x: bv32, n: nat): bv32 {
    match n
    case 4 => Turn4(x)
    case 5 => Turn1(Turn4(x))
    case 6 => Turn2(Turn4(x))
    case 7 => Turn1(Turn2(Turn4(x)))
    case 9 => Turn1(Turn8(x))
    case 10 => Turn2(Turn8(x))
    case 11 => Turn1(Turn2(Turn8(x)))
    case 12 => Turn4(Turn8(x))
    case 14 => Turn2(Turn4(Turn8(x)))
    case 15 => Turn1(Turn2(Turn4(Turn8(x))))
    case 16 => Turn16(x)
    case 17 => Turn1(Turn16(x))
    case 20 => Turn4(Turn16(x))
    case 21 => Turn1(Turn4(Turn16(x)))
    case 22 => Turn2(Turn4(Turn16(x)))
    case _ => Turn1(Turn2(Turn4(Turn16(x))))
  }

  lemma Turned4(x: bv32)
    ensures TurnMany(x, 4) == Turn4(x)
  {
    hide TurnMany, Turn1, Turn2, Turn4, Turn8, Turn16;
    TurnMany4(x);
  }

  lemma Turned5(x: bv32)
    ensures TurnMany(x, 5) == Turn1(Turn4(x))
  {
    hide TurnMany, Turn1, Turn2, Turn4, Turn8, Turn16;
    TurnMany4(x);
    TurnManyOne(Turn4(x));
    TurnManyMore(x, 4, 1);
  }

  lemma Turned6(x: bv32)
    ensures TurnMany(x, 6) == Turn2(Turn4(x))
  {
    hide TurnMany, Turn1, Turn2, Turn4, Turn8, Turn16;
    TurnMany4(x);
    TurnMany2(Turn4(x));
    TurnManyMore(x, 4, 2);
  }

  lemma Turned7(x: bv32)
    ensures TurnMany(x, 7) == Turn1(Turn2(Turn4(x)))
  {
    hide TurnMany, Turn1, Turn2, Turn4, Turn8, Turn16;
    TurnMany4(x);
    TurnMany2(Turn4(x));
    TurnManyMore(x, 4, 2);
    TurnManyOne(Turn2(Turn4(x)));
    TurnManyMore(x, 6, 1);
  }

  lemma Turned9(x: bv32)
    ensures TurnMany(x, 9) == Turn1(Turn8(x))
  {
    hide TurnMany, Turn1, Turn2, Turn4, Turn8, Turn16;
    TurnMany8(x);
    TurnManyOne(Turn8(x));
    TurnManyMore(x, 8, 1);
  }

  lemma Turned10(x: bv32)
    ensures TurnMany(x, 10) == Turn2(Turn8(x))
  {
    hide TurnMany, Turn1, Turn2, Turn4, Turn8, Turn16;
    TurnMany8(x);
    TurnMany2(Turn8(x));
    TurnManyMore(x, 8, 2);
  }

  lemma Turned11(x: bv32)
    ensures TurnMany(x, 11) == Turn1(Turn2(Turn8(x)))
  {
    hide TurnMany, Turn1, Turn2, Turn4, Turn8, Turn16;
    TurnMany8(x);
    TurnMany2(Turn8(x));
    TurnManyMore(x, 8, 2);
    TurnManyOne(Turn2(Turn8(x)));
    TurnManyMore(x, 10, 1);
  }

  lemma Turned12(x: bv32)
    ensures TurnMany(x, 12) == Turn4(Turn8(x))
  {
    hide TurnMany, Turn1, Turn2, Turn4, Turn8, Turn16;
    TurnMany8(x);
    TurnMany4(Turn8(x));
    TurnManyMore(x, 8, 4);
  }

  lemma Turned14(x: bv32)
    ensures TurnMany(x, 14) == Turn2(Turn4(Turn8(x)))
  {
    hide TurnMany, Turn1, Turn2, Turn4, Turn8, Turn16;
    TurnMany8(x);
    TurnMany4(Turn8(x));
    TurnManyMore(x, 8, 4);
    TurnMany2(Turn4(Turn8(x)));
    TurnManyMore(x, 12, 2);
  }

  lemma Turned15(x: bv32)
    ensures TurnMany(x, 15) == Turn1(Turn2(Turn4(Turn8(x))))
  {
    hide TurnMany, Turn1, Turn2, Turn4, Turn8, Turn16;
    TurnMany8(x);
    TurnMany4(Turn8(x));
    TurnManyMore(x, 8, 4);
    TurnMany2(Turn4(Turn8(x)));
    TurnManyMore(x, 12, 2);
    TurnManyOne(Turn2(Turn4(Turn8(x))));
    TurnManyMore(x, 14, 1);
  }

  lemma Turned16(x: bv32)
    ensures TurnMany(x, 16) == Turn16(x)
  {
    hide TurnMany, Turn1, Turn2, Turn4, Turn8, Turn16;
    TurnMany16(x);
  }

  lemma Turned17(x: bv32)
    ensures TurnMany(x, 17) == Turn1(Turn16(x))
  {
    hide TurnMany, Turn1, Turn2, Turn4, Turn8, Turn16;
    TurnMany16(x);
    TurnManyOne(Turn16(x));
    TurnManyMore(x, 16, 1);
  }

  lemma Turned20(x: bv32)
    ensures TurnMany(x, 20) == Turn4(Turn16(x))
  {
    hide TurnMany, Turn1, Turn2, Turn4, Turn8, Turn16;
    TurnMany16(x);
    TurnMany4(Turn16(x));
    TurnManyMore(x, 16, 4);
  }

  lemma Turned21(x: bv32)
    ensures TurnMany(x, 21) == Turn1(Turn4(Turn16(x)))
  {
    hide TurnMany, Turn1, Turn2, Turn4, Turn8, Turn16;
    TurnMany16(x);
    TurnMany4(Turn16(x));
    TurnManyMore(x, 16, 4);
    TurnManyOne(Turn4(Turn16(x)));
    TurnManyMore(x, 20, 1);
  }

  lemma Turned22(x: bv32)
    ensures TurnMany(x, 22) == Turn2(Turn4(Turn16(x)))
  {
    hide TurnMany, Turn1, Turn2, Turn4, Turn8, Turn16;
    TurnMany16(x);
    TurnMany4(Turn16(x));
    TurnManyMore(x, 16, 4);
    TurnMany2(Turn4(Turn16(x)));
    TurnManyMore(x, 20, 2);
  }

  lemma Turned23(x: bv32)
    ensures TurnMany(x, 23) == Turn1(Turn2(Turn4(Turn16(x))))
  {
    hide TurnMany, Turn1, Turn2, Turn4, Turn8, Turn16;
    TurnMany16(x);
    TurnMany4(Turn16(x));
    TurnManyMore(x, 16, 4);
    TurnMany2(Turn4(Turn16(x)));
    TurnManyMore(x, 20, 2);
    TurnManyOne(Turn2(Turn4(Turn16(x))));
    TurnManyMore(x, 22, 1);
  }

  predicate IsShift(n: nat) {
    n == 4 || n == 5 || n == 6 || n == 7 || n == 9 || n == 10 || n == 11 || n == 12 || n == 14 || n == 15 || n == 16 || n == 17 || n == 20 || n == 21 || n == 22 || n == 23
  }

  lemma TurnedIs(x: bv32, n: nat)
    requires IsShift(n)
    ensures Turned(x, n) == TurnMany(x, n)
  {
    hide TurnMany, Turn1, Turn2, Turn4, Turn8, Turn16;
    Turned4(x);
    Turned5(x);
    Turned6(x);
    Turned7(x);
    Turned9(x);
    Turned10(x);
    Turned11(x);
    Turned12(x);
    Turned14(x);
    Turned15(x);
    Turned16(x);
    Turned17(x);
    Turned20(x);
    Turned21(x);
    Turned22(x);
    Turned23(x);
  }

  // ----- the operations -----------------------------------------------------------------------------------

  // The auxiliary functions of section 3.4.

  function Mix1(x: bv32, y: bv32, z: bv32): bv32 {
    OrOf(AndOf(x, y), AndOf(NotOf(x), z))
  }

  function Mix2(x: bv32, y: bv32, z: bv32): bv32 {
    OrOf(AndOf(x, z), AndOf(y, NotOf(z)))
  }

  function Mix3(x: bv32, y: bv32, z: bv32): bv32 {
    XorOf(XorOf(x, y), z)
  }

  function Mix4(x: bv32, y: bv32, z: bv32): bv32 {
    XorOf(y, OrOf(x, NotOf(z)))
  }

  lemma MixesAre(x: bv32, y: bv32, z: bv32)
    ensures F(Val(x), Val(y), Val(z)) == Val(Mix1(x, y, z)) && G(Val(x), Val(y), Val(z)) == Val(Mix2(x, y, z))
    ensures H(Val(x), Val(y), Val(z)) == Val(Mix3(x, y, z)) && I(Val(x), Val(y), Val(z)) == Val(Mix4(x, y, z))
  {
    hide Val, And, Or, Xor, Not, AndOf, OrOf, XorOf, NotOf;
    NotVector(x);
    NotVector(z);
    AndVectors(x, y);
    AndVectors(NotOf(x), z);
    OrVectors(AndOf(x, y), AndOf(NotOf(x), z));
    AndVectors(x, z);
    AndVectors(y, NotOf(z));
    OrVectors(AndOf(x, z), AndOf(y, NotOf(z)));
    XorVectors(x, y);
    XorVectors(XorOf(x, y), z);
    OrVectors(x, NotOf(z));
    XorVectors(y, OrOf(x, NotOf(z)));
  }

  datatype Vectors = Vectors(a: bv32, b: bv32, c: bv32, d: bv32)

  function ValQuad(q: Vectors): Quad {
    Quad(Val(q.a), Val(q.b), Val(q.c), Val(q.d))
  }

  /** An operation on vectors: `f` is what is mixed of three registers, `k` the word of the block, `t` the value
      of the table and `n` the shift. */
  function Turn(q: Vectors, f: bv32, k: bv32, t: bv32, n: nat): Vectors {
    Vectors(q.d, Plus(q.b, Turned(Plus(Plus(Plus(q.a, f), k), t), n)), q.b, q.c)
  }

  /** It is the operation on the words. */
  lemma TurnIs(q: Vectors, x: seq<Word>, i: nat, f: bv32, k: bv32, t: bv32, n: nat)
    requires i < 64 && |x| == 16 && Val(f) == Mix(i, Val(q.b), Val(q.c), Val(q.d))
    requires Val(k) == x[Pick(i)] && Val(t) == Sine(i) && n == Shift(i)
    ensures Step(ValQuad(q), x, i) == ValQuad(Turn(q, f, k, t, n))
  {
    hide Val, Plus, Mix, Sine, Pick, Shift, Turned, TurnMany, RotateLeft, Add;
    AddVectors(q.a, f);
    AddVectors(Plus(q.a, f), k);
    AddVectors(Plus(Plus(q.a, f), k), t);
    var sum := Plus(Plus(Plus(q.a, f), k), t);
    ShiftIs(i);
    TurnedIs(sum, n);
    TurnManyIs(sum, n);
    AddVectors(q.b, Turned(sum, n));
  }

  lemma ShiftIs(i: nat)
    requires i < 64
    ensures IsShift(Shift(i)) && Shift(i) < 32
  {
  }
}

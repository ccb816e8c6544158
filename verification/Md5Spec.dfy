/** The MD5 message digest of RFC 1321: words, rounds, padding and output. */
module Md5Spec {
  import opened Bits
  import opened Words

  newtype Byte = b: int | 0 <= b < 256

  datatype Quad = Quad(a: Word, b: Word, c: Word, d: Word)

  // ----- section 3.4: the auxiliary functions ----------------------------------------------------

  function F(x: Word, y: Word, z: Word): Word {
    Or(And(x, y), And(Not(x), z))
  }

  function G(x: Word, y: Word, z: Word): Word {
    Or(And(x, z), And(y, Not(z)))
  }

  function H(x: Word, y: Word, z: Word): Word {
    Xor(Xor(x, y), z)
  }

  function I(x: Word, y: Word, z: Word): Word {
    Xor(y, Or(x, Not(z)))
  }

  /** F selects bit by bit: where x has a one it takes y, elsewhere z. G selects by z. */
  lemma Selects(x: Word, y: Word, z: Word, i: nat)
    requires i < 32
    ensures Bit(F(x, y, z), i) == if Bit(x, i) then Bit(y, i) else Bit(z, i)
    ensures Bit(G(x, y, z), i) == if Bit(z, i) then Bit(x, i) else Bit(y, i)
    ensures Bit(H(x, y, z), i) == (Bit(x, i) != (Bit(y, i) != Bit(z, i)))
    ensures Bit(I(x, y, z), i) == (Bit(y, i) != (Bit(x, i) || !Bit(z, i)))
  {
    hide Combine, Bit, Power2;
    Power32();
    NotBit(x, 32, i);
    NotBit(z, 32, i);
    CombineBit(Conjunction, x, y, 32, i);
    CombineBit(Conjunction, Not(x), z, 32, i);
    CombineBit(Disjunction, And(x, y), And(Not(x), z), 32, i);
    CombineBit(Conjunction, x, z, 32, i);
    CombineBit(Conjunction, y, Not(z), 32, i);
    CombineBit(Disjunction, And(x, z), And(y, Not(z)), 32, i);
    CombineBit(Exclusion, x, y, 32, i);
    CombineBit(Exclusion, Xor(x, y), z, 32, i);
    CombineBit(Disjunction, x, Not(z), 32, i);
    CombineBit(Exclusion, y, Or(x, Not(z)), 32, i);
  }

  function Add(x: Word, y: Word): Word {
    (x + y) % UNSIGNED_INT
  }

  // ----- section 3.4: the rounds -----------------------------------------------------------------

  function Sine1(i: nat): Word
    requires i < 16
  {
    match i
    case 0 => 0xd76aa478
    case 1 => 0xe8c7b756
    case 2 => 0x242070db
    case 3 => 0xc1bdceee
    case 4 => 0xf57c0faf
    case 5 => 0x4787c62a
    case 6 => 0xa8304613
    case 7 => 0xfd469501
    case 8 => 0x698098d8
    case 9 => 0x8b44f7af
    case 10 => 0xffff5bb1
    case 11 => 0x895cd7be
    case 12 => 0x6b901122
    case 13 => 0xfd987193
    case 14 => 0xa679438e
    case _ => 0x49b40821
  }

  function Sine2(i: nat): Word
    requires i < 16
  {
    match i
    case 0 => 0xf61e2562
    case 1 => 0xc040b340
    case 2 => 0x265e5a51
    case 3 => 0xe9b6c7aa
    case 4 => 0xd62f105d
    case 5 => 0x2441453
    case 6 => 0xd8a1e681
    case 7 => 0xe7d3fbc8
    case 8 => 0x21e1cde6
    case 9 => 0xc33707d6
    case 10 => 0xf4d50d87
    case 11 => 0x455a14ed
    case 12 => 0xa9e3e905
    case 13 => 0xfcefa3f8
    case 14 => 0x676f02d9
    case _ => 0x8d2a4c8a
  }

  function Sine3(i: nat): Word
    requires i < 16
  {
    match i
    case 0 => 0xfffa3942
    case 1 => 0x8771f681
    case 2 => 0x6d9d6122
    case 3 => 0xfde5380c
    case 4 => 0xa4beea44
    case 5 => 0x4bdecfa9
    case 6 => 0xf6bb4b60
    case 7 => 0xbebfbc70
    case 8 => 0x289b7ec6
    case 9 => 0xeaa127fa
    case 10 => 0xd4ef3085
    case 11 => 0x4881d05
    case 12 => 0xd9d4d039
    case 13 => 0xe6db99e5
    case 14 => 0x1fa27cf8
    case _ => 0xc4ac5665
  }

  function Sine4(i: nat): Word
    requires i < 16
  {
    match i
    case 0 => 0xf4292244
    case 1 => 0x432aff97
    case 2 => 0xab9423a7
    case 3 => 0xfc93a039
    case 4 => 0x655b59c3
    case 5 => 0x8f0ccc92
    case 6 => 0xffeff47d
    case 7 => 0x85845dd1
    case 8 => 0x6fa87e4f
    case 9 => 0xfe2ce6e0
    case 10 => 0xa3014314
    case 11 => 0x4e0811a1
    case 12 => 0xf7537e82
    case 13 => 0xbd3af235
    case 14 => 0x2ad7d2bb
    case _ => 0xeb86d391
  }

  /** T[i + 1] */
  function Sine(i: nat): Word
    requires i < 64
  {
    if i < 16 then Sine1(i) else if i < 32 then Sine2(i - 16) else if i < 48 then Sine3(i - 32) else Sine4(i - 48)
  }

  function Shift(i: nat): (s: nat)
    requires i < 64
    ensures s <= 32
  {
    if i < 16 then (if i % 4 == 0 then 7 else if i % 4 == 1 then 12 else if i % 4 == 2 then 17 else 22)
    else if i < 32 then (if i % 4 == 0 then 5 else if i % 4 == 1 then 9 else if i % 4 == 2 then 14 else 20)
    else if i < 48 then (if i % 4 == 0 then 4 else if i % 4 == 1 then 11 else if i % 4 == 2 then 16 else 23)
    else (if i % 4 == 0 then 6 else if i % 4 == 1 then 10 else if i % 4 == 2 then 15 else 21)
  }

  /** Which word of the block operation `i` takes. */
  function Pick(i: nat): (k: nat)
    requires i < 64
    ensures k < 16
  {
    if i < 16 then i else if i < 32 then (5 * i + 1) % 16 else if i < 48 then (3 * i + 5) % 16 else 7 * i % 16
  }

  function Mix(i: nat, x: Word, y: Word, z: Word): Word
    requires i < 64
  {
    if i < 16 then F(x, y, z) else if i < 32 then G(x, y, z) else if i < 48 then H(x, y, z) else I(x, y, z)
  }

  /** Operation `i`: a = b + ((a + f(b,c,d) + X[k] + T[i]) <<< s), and the registers move on. */
  function Step(q: Quad, x: seq<Word>, i: nat): Quad
    requires i < 64 && |x| == 16
  {
    var sum := Add(Add(Add(q.a, Mix(i, q.b, q.c, q.d)), x[Pick(i)]), Sine(i));
    Quad(q.d, Add(q.b, RotateLeft(sum, Shift(i))), q.b, q.c)
  }

  /** The registers after the first `n` operations. */
  function Steps(q: Quad, x: seq<Word>, n: nat): Quad
    requires n <= 64 && |x| == 16
  {
    if n == 0 then q else Step(Steps(q, x, n - 1), x, n - 1)
  }

  function AddQuad(p: Quad, q: Quad): Quad {
    Quad(Add(p.a, q.a), Add(p.b, q.b), Add(p.c, q.c), Add(p.d, q.d))
  }

  // ----- bytes and words, low byte first -----------------------------------------------------------

  function WordAt(s: seq<Byte>, k: nat): Word
    requires 4 * k + 4 <= |s|
  {
    s[4 * k] as int + s[4 * k + 1] as int * 0x100 + s[4 * k + 2] as int * 0x1_0000 + s[4 * k + 3] as int * 0x100_0000
  }

  function WordsOf(s: seq<Byte>): (x: seq<Word>)
    requires |s| % 4 == 0
    ensures |x| == |s| / 4
  {
    seq(|s| / 4, k requires 0 <= k < |s| / 4 => WordAt(s, k))
  }

  function BytesOf(w: Word): (s: seq<Byte>)
    ensures |s| == 4
  {
    [(w % 256) as Byte, (w / 0x100 % 256) as Byte, (w / 0x1_0000 % 256) as Byte, (w / 0x100_0000 % 256) as Byte]
  }

  /** Each word gives its four bytes back, and four bytes the word. */
  lemma BytesWord(w: Word)
    ensures WordAt(BytesOf(w), 0) == w
  {
    var w1, w2 := w / 0x100, w / 0x1_0000;
    assert w1 / 0x100 == w2 && w2 / 0x100 == w / 0x100_0000;
    assert w == w1 * 0x100 + w % 256 && w1 == w2 * 0x100 + w1 % 256;
  }

  // ----- sections 3.1 to 3.5 -------------------------------------------------------------------------

  const INIT := Quad(0x67452301, 0xefcdab89, 0x98badcfe, 0x10325476)

  function Compress(q: Quad, block: seq<Byte>): Quad
    requires |block| == 64
  {
    AddQuad(q, Steps(q, WordsOf(block), 64))
  }

  /** The registers after the whole blocks of a message. */
  function Absorb(q: Quad, m: seq<Byte>): Quad
    decreases |m|
  {
    if |m| < 64 then q else Absorb(Compress(q, m[..64]), m[64..])
  }

  lemma {:induction false} AbsorbJoins(q: Quad, m: seq<Byte>, t: seq<Byte>)
    requires |m| % 64 == 0
    ensures Absorb(q, m + t) == Absorb(Absorb(q, m), t)
    decreases |m|
  {
    hide Compress;
    if m == [] {
      assert m + t == t;
    } else {
      assert (m + t)[..64] == m[..64] && (m + t)[64..] == m[64..] + t;
      AbsorbJoins(Compress(q, m[..64]), m[64..], t);
    }
  }

  function Zeros(n: nat): (s: seq<Byte>)
    ensures |s| == n && forall i :: 0 <= i < n ==> s[i] == 0
  {
    if n == 0 then [] else [0] + Zeros(n - 1)
  }

  /** Section 3.1: a one bit and as many zero bits as bring the length to 56 bytes modulo 64. */
  function Padding(n: nat): (s: seq<Byte>)
    ensures (n + |s|) % 64 == 56 && 1 <= |s| <= 64
  {
    var k := (55 - n) % 64;
    [0x80] + Zeros(k)
  }

  /** Section 3.2: the number of bits modulo 2^64, low word first. */
  function LengthBytes(n: nat): (s: seq<Byte>)
    ensures |s| == 8
  {
    var bits := 8 * n % UNSIGNED_LONG;
    BytesOf(bits % UNSIGNED_INT) + BytesOf(bits / UNSIGNED_INT)
  }

  function Output(q: Quad): (s: seq<Byte>)
    ensures |s| == 16
  {
    BytesOf(q.a) + BytesOf(q.b) + BytesOf(q.c) + BytesOf(q.d)
  }

  function Digest(m: seq<Byte>): (s: seq<Byte>)
    ensures |s| == 16
  {
    Output(Absorb(INIT, m + Padding(|m|) + LengthBytes(|m|)))
  }

  /** The padded message is a whole number of blocks. */
  lemma PaddedIsWhole(m: seq<Byte>)
    ensures |m + Padding(|m|) + LengthBytes(|m|)| % 64 == 0
  {
    hide Padding, LengthBytes;
    var n := |m| + |Padding(|m|)|;
    assert |m + Padding(|m|) + LengthBytes(|m|)| == n + 8;
    EightMore(n);
  }

  lemma EightMore(n: nat)
    requires n % 64 == 56
    ensures (n + 8) % 64 == 0
  {
  }

  function HexDigit(d: nat): char
    requires d < 16
  {
    if d < 10 then ('0' as int + d) as char else ('a' as int + (d - 10)) as char
  }

  function Hex(s: seq<Byte>): (t: string)
    ensures |t| == 2 * |s|
  {
    if s == [] then "" else [HexDigit(s[0] as int / 16), HexDigit(s[0] as int % 16)] + Hex(s[1..])
  }
}

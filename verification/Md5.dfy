/** libcwmp/src/md5.c and the digests of libcwmp/src/util.c on a 32-bit target: a context that is fed
    piece by piece gives the digest of the whole message.

    The registers of MD5Transform are updated in place, each operation naming another one first, where
    RFC 1321 counts steps on registers that move round; the rounds are proved row by row to be the same.
    The context stands for the message given so far: its state for the whole blocks, its buffer for what
    is left, and its count for the length. */
module Md5 {
  import opened Bits
  import opened Md5Spec
  import opened Words

  // ----- MD5Transform -----------------------------------------------------------------------------

  /** FF */
  function Ff(a: Word, b: Word, c: Word, d: Word, x: Word, s: nat, ac: Word): Word
    requires s <= 32
  {
    Add(RotateLeft(Add(a, Add(Add(F(b, c, d), x), ac)), s), b)
  }

  /** GG */
  function Gg(a: Word, b: Word, c: Word, d: Word, x: Word, s: nat, ac: Word): Word
    requires s <= 32
  {
    Add(RotateLeft(Add(a, Add(Add(G(b, c, d), x), ac)), s), b)
  }

  /** HH */
  function Hh(a: Word, b: Word, c: Word, d: Word, x: Word, s: nat, ac: Word): Word
    requires s <= 32
  {
    Add(RotateLeft(Add(a, Add(Add(H(b, c, d), x), ac)), s), b)
  }

  /** II */
  function Ii(a: Word, b: Word, c: Word, d: Word, x: Word, s: nat, ac: Word): Word
    requires s <= 32
  {
    Add(RotateLeft(Add(a, Add(Add(I(b, c, d), x), ac)), s), b)
  }

  function Wrap(n: nat): Word {
    n % UNSIGNED_INT
  }

  lemma WrapIn(n: nat, m: nat)
    ensures Wrap(Wrap(n) + m) == Wrap(n + m) == Wrap(n + Wrap(m))
  {
  }

  lemma AddWraps(x: Word, y: Word)
    ensures Add(x, y) == Wrap(x + y)
  {
  }

  lemma Sum(a: Word, f: Word, x: Word, ac: Word)
    ensures Add(a, Add(Add(f, x), ac)) == Add(Add(Add(a, f), x), ac)
  {
    hide Add, Wrap;
    AddWraps(f, x);
    AddWraps(Add(f, x), ac);
    AddWraps(a, Add(Add(f, x), ac));
    AddWraps(a, f);
    AddWraps(Add(a, f), x);
    AddWraps(Add(Add(a, f), x), ac);
    WrapIn(f + x, ac);
    WrapIn(a, f + x + ac);
    WrapIn(a + f, x);
    WrapIn(a + f + x, ac);
  }

  lemma Turn(a: Word, b: Word)
    ensures Add(a, b) == Add(b, a)
  {
  }

  lemma StepsFour(q: Quad, x: seq<Word>, i: nat)
    requires |x| == 16 && i + 4 <= 64
    ensures Steps(q, x, i + 4) == Step(Step(Step(Step(Steps(q, x, i), x, i), x, i + 1), x, i + 2), x, i + 3)
  {
    hide Step;
    assert Steps(q, x, i + 1) == Step(Steps(q, x, i), x, i);
    assert Steps(q, x, i + 2) == Step(Steps(q, x, i + 1), x, i + 1);
    assert Steps(q, x, i + 3) == Step(Steps(q, x, i + 2), x, i + 2);
  }

  /** Four operations of round 1, each on its own register, are four steps of moving registers. */
  lemma Row1(q: Quad, x: seq<Word>, i: nat, was: Quad, now: Quad)
    requires |x| == 16 && 0 <= i <= 12 && i % 4 == 0 && was == Steps(q, x, i)
    requires now.a == Ff(was.a, was.b, was.c, was.d, x[Pick(i)], 7, Sine(i))
    requires now.d == Ff(was.d, now.a, was.b, was.c, x[Pick(i + 1)], 12, Sine(i + 1))
    requires now.c == Ff(was.c, now.d, now.a, was.b, x[Pick(i + 2)], 17, Sine(i + 2))
    requires now.b == Ff(was.b, now.c, now.d, now.a, x[Pick(i + 3)], 22, Sine(i + 3))
    ensures now == Steps(q, x, i + 4)
  {
    hide F, Add, RotateLeft, Sine, Pick;
    StepsFour(q, x, i);
    Sum(was.a, F(was.b, was.c, was.d), x[Pick(i)], Sine(i));
    Sum(was.d, F(now.a, was.b, was.c), x[Pick(i + 1)], Sine(i + 1));
    Sum(was.c, F(now.d, now.a, was.b), x[Pick(i + 2)], Sine(i + 2));
    Sum(was.b, F(now.c, now.d, now.a), x[Pick(i + 3)], Sine(i + 3));
    Turn(RotateLeft(Add(Add(Add(was.a, F(was.b, was.c, was.d)), x[Pick(i)]), Sine(i)), 7), was.b);
    Turn(RotateLeft(Add(Add(Add(was.d, F(now.a, was.b, was.c)), x[Pick(i + 1)]), Sine(i + 1)), 12), now.a);
    Turn(RotateLeft(Add(Add(Add(was.c, F(now.d, now.a, was.b)), x[Pick(i + 2)]), Sine(i + 2)), 17), now.d);
    Turn(RotateLeft(Add(Add(Add(was.b, F(now.c, now.d, now.a)), x[Pick(i + 3)]), Sine(i + 3)), 22), now.c);
  }

  /** Four operations of round 2, each on its own register, are four steps of moving registers. */
  lemma Row2(q: Quad, x: seq<Word>, i: nat, was: Quad, now: Quad)
    requires |x| == 16 && 16 <= i <= 28 && i % 4 == 0 && was == Steps(q, x, i)
    requires now.a == Gg(was.a, was.b, was.c, was.d, x[Pick(i)], 5, Sine(i))
    requires now.d == Gg(was.d, now.a, was.b, was.c, x[Pick(i + 1)], 9, Sine(i + 1))
    requires now.c == Gg(was.c, now.d, now.a, was.b, x[Pick(i + 2)], 14, Sine(i + 2))
    requires now.b == Gg(was.b, now.c, now.d, now.a, x[Pick(i + 3)], 20, Sine(i + 3))
    ensures now == Steps(q, x, i + 4)
  {
    hide G, Add, RotateLeft, Sine, Pick;
    StepsFour(q, x, i);
    Sum(was.a, G(was.b, was.c, was.d), x[Pick(i)], Sine(i));
    Sum(was.d, G(now.a, was.b, was.c), x[Pick(i + 1)], Sine(i + 1));
    Sum(was.c, G(now.d, now.a, was.b), x[Pick(i + 2)], Sine(i + 2));
    Sum(was.b, G(now.c, now.d, now.a), x[Pick(i + 3)], Sine(i + 3));
    Turn(RotateLeft(Add(Add(Add(was.a, G(was.b, was.c, was.d)), x[Pick(i)]), Sine(i)), 5), was.b);
    Turn(RotateLeft(Add(Add(Add(was.d, G(now.a, was.b, was.c)), x[Pick(i + 1)]), Sine(i + 1)), 9), now.a);
    Turn(RotateLeft(Add(Add(Add(was.c, G(now.d, now.a, was.b)), x[Pick(i + 2)]), Sine(i + 2)), 14), now.d);
    Turn(RotateLeft(Add(Add(Add(was.b, G(now.c, now.d, now.a)), x[Pick(i + 3)]), Sine(i + 3)), 20), now.c);
  }

  /** Four operations of round 3, each on its own register, are four steps of moving registers. */
  lemma Row3(q: Quad, x: seq<Word>, i: nat, was: Quad, now: Quad)
    requires |x| == 16 && 32 <= i <= 44 && i % 4 == 0 && was == Steps(q, x, i)
    requires now.a == Hh(was.a, was.b, was.c, was.d, x[Pick(i)], 4, Sine(i))
    requires now.d == Hh(was.d, now.a, was.b, was.c, x[Pick(i + 1)], 11, Sine(i + 1))
    requires now.c == Hh(was.c, now.d, now.a, was.b, x[Pick(i + 2)], 16, Sine(i + 2))
    requires now.b == Hh(was.b, now.c, now.d, now.a, x[Pick(i + 3)], 23, Sine(i + 3))
    ensures now == Steps(q, x, i + 4)
  {
    hide H, Add, RotateLeft, Sine, Pick;
    StepsFour(q, x, i);
    Sum(was.a, H(was.b, was.c, was.d), x[Pick(i)], Sine(i));
    Sum(was.d, H(now.a, was.b, was.c), x[Pick(i + 1)], Sine(i + 1));
    Sum(was.c, H(now.d, now.a, was.b), x[Pick(i + 2)], Sine(i + 2));
    Sum(was.b, H(now.c, now.d, now.a), x[Pick(i + 3)], Sine(i + 3));
    Turn(RotateLeft(Add(Add(Add(was.a, H(was.b, was.c, was.d)), x[Pick(i)]), Sine(i)), 4), was.b);
    Turn(RotateLeft(Add(Add(Add(was.d, H(now.a, was.b, was.c)), x[Pick(i + 1)]), Sine(i + 1)), 11), now.a);
    Turn(RotateLeft(Add(Add(Add(was.c, H(now.d, now.a, was.b)), x[Pick(i + 2)]), Sine(i + 2)), 16), now.d);
    Turn(RotateLeft(Add(Add(Add(was.b, H(now.c, now.d, now.a)), x[Pick(i + 3)]), Sine(i + 3)), 23), now.c);
  }

  /** Four operations of round 4, each on its own register, are four steps of moving registers. */
  lemma Row4(q: Quad, x: seq<Word>, i: nat, was: Quad, now: Quad)
    requires |x| == 16 && 48 <= i <= 60 && i % 4 == 0 && was == Steps(q, x, i)
    requires now.a == Ii(was.a, was.b, was.c, was.d, x[Pick(i)], 6, Sine(i))
    requires now.d == Ii(was.d, now.a, was.b, was.c, x[Pick(i + 1)], 10, Sine(i + 1))
    requires now.c == Ii(was.c, now.d, now.a, was.b, x[Pick(i + 2)], 15, Sine(i + 2))
    requires now.b == Ii(was.b, now.c, now.d, now.a, x[Pick(i + 3)], 21, Sine(i + 3))
    ensures now == Steps(q, x, i + 4)
  {
    hide I, Add, RotateLeft, Sine, Pick;
    StepsFour(q, x, i);
    Sum(was.a, I(was.b, was.c, was.d), x[Pick(i)], Sine(i));
    Sum(was.d, I(now.a, was.b, was.c), x[Pick(i + 1)], Sine(i + 1));
    Sum(was.c, I(now.d, now.a, was.b), x[Pick(i + 2)], Sine(i + 2));
    Sum(was.b, I(now.c, now.d, now.a), x[Pick(i + 3)], Sine(i + 3));
    Turn(RotateLeft(Add(Add(Add(was.a, I(was.b, was.c, was.d)), x[Pick(i)]), Sine(i)), 6), was.b);
    Turn(RotateLeft(Add(Add(Add(was.d, I(now.a, was.b, was.c)), x[Pick(i + 1)]), Sine(i + 1)), 10), now.a);
    Turn(RotateLeft(Add(Add(Add(was.c, I(now.d, now.a, was.b)), x[Pick(i + 2)]), Sine(i + 2)), 15), now.d);
    Turn(RotateLeft(Add(Add(Add(was.b, I(now.c, now.d, now.a)), x[Pick(i + 3)]), Sine(i + 3)), 21), now.c);
  }

  method Round1(ghost q: Quad, x: seq<Word>, a0: Word, b0: Word, c0: Word, d0: Word) returns (a: Word, b: Word, c: Word, d: Word)
    requires |x| == 16 && Quad(a0, b0, c0, d0) == Steps(q, x, 0)
    ensures Quad(a, b, c, d) == Steps(q, x, 16)
  {
    hide Steps, Ff;
    a, b, c, d := a0, b0, c0, d0;
    ghost var was := Quad(a, b, c, d);
    a := Ff(a, b, c, d, x[0], 7, 0xd76aa478);
    d := Ff(d, a, b, c, x[1], 12, 0xe8c7b756);
    c := Ff(c, d, a, b, x[2], 17, 0x242070db);
    b := Ff(b, c, d, a, x[3], 22, 0xc1bdceee);
    Row1(q, x, 0, was, Quad(a, b, c, d));
    was := Quad(a, b, c, d);
    a := Ff(a, b, c, d, x[4], 7, 0xf57c0faf);
    d := Ff(d, a, b, c, x[5], 12, 0x4787c62a);
    c := Ff(c, d, a, b, x[6], 17, 0xa8304613);
    b := Ff(b, c, d, a, x[7], 22, 0xfd469501);
    Row1(q, x, 4, was, Quad(a, b, c, d));
    was := Quad(a, b, c, d);
    a := Ff(a, b, c, d, x[8], 7, 0x698098d8);
    d := Ff(d, a, b, c, x[9], 12, 0x8b44f7af);
    c := Ff(c, d, a, b, x[10], 17, 0xffff5bb1);
    b := Ff(b, c, d, a, x[11], 22, 0x895cd7be);
    Row1(q, x, 8, was, Quad(a, b, c, d));
    was := Quad(a, b, c, d);
    a := Ff(a, b, c, d, x[12], 7, 0x6b901122);
    d := Ff(d, a, b, c, x[13], 12, 0xfd987193);
    c := Ff(c, d, a, b, x[14], 17, 0xa679438e);
    b := Ff(b, c, d, a, x[15], 22, 0x49b40821);
    Row1(q, x, 12, was, Quad(a, b, c, d));
    was := Quad(a, b, c, d);
  }

  method Round2(ghost q: Quad, x: seq<Word>, a0: Word, b0: Word, c0: Word, d0: Word) returns (a: Word, b: Word, c: Word, d: Word)
    requires |x| == 16 && Quad(a0, b0, c0, d0) == Steps(q, x, 16)
    ensures Quad(a, b, c, d) == Steps(q, x, 32)
  {
    hide Steps, Gg;
    a, b, c, d := a0, b0, c0, d0;
    ghost var was := Quad(a, b, c, d);
    a := Gg(a, b, c, d, x[1], 5, 0xf61e2562);
    d := Gg(d, a, b, c, x[6], 9, 0xc040b340);
    c := Gg(c, d, a, b, x[11], 14, 0x265e5a51);
    b := Gg(b, c, d, a, x[0], 20, 0xe9b6c7aa);
    Row2(q, x, 16, was, Quad(a, b, c, d));
    was := Quad(a, b, c, d);
    a := Gg(a, b, c, d, x[5], 5, 0xd62f105d);
    d := Gg(d, a, b, c, x[10], 9, 0x2441453);
    c := Gg(c, d, a, b, x[15], 14, 0xd8a1e681);
    b := Gg(b, c, d, a, x[4], 20, 0xe7d3fbc8);
    Row2(q, x, 20, was, Quad(a, b, c, d));
    was := Quad(a, b, c, d);
    a := Gg(a, b, c, d, x[9], 5, 0x21e1cde6);
    d := Gg(d, a, b, c, x[14], 9, 0xc33707d6);
    c := Gg(c, d, a, b, x[3], 14, 0xf4d50d87);
    b := Gg(b, c, d, a, x[8], 20, 0x455a14ed);
    Row2(q, x, 24, was, Quad(a, b, c, d));
    was := Quad(a, b, c, d);
    a := Gg(a, b, c, d, x[13], 5, 0xa9e3e905);
    d := Gg(d, a, b, c, x[2], 9, 0xfcefa3f8);
    c := Gg(c, d, a, b, x[7], 14, 0x676f02d9);
    b := Gg(b, c, d, a, x[12], 20, 0x8d2a4c8a);
    Row2(q, x, 28, was, Quad(a, b, c, d));
    was := Quad(a, b, c, d);
  }

  method Round3(ghost q: Quad, x: seq<Word>, a0: Word, b0: Word, c0: Word, d0: Word) returns (a: Word, b: Word, c: Word, d: Word)
    requires |x| == 16 && Quad(a0, b0, c0, d0) == Steps(q, x, 32)
    ensures Quad(a, b, c, d) == Steps(q, x, 48)
  {
    hide Steps, Hh;
    a, b, c, d := a0, b0, c0, d0;
    ghost var was := Quad(a, b, c, d);
    a := Hh(a, b, c, d, x[5], 4, 0xfffa3942);
    d := Hh(d, a, b, c, x[8], 11, 0x8771f681);
    c := Hh(c, d, a, b, x[11], 16, 0x6d9d6122);
    b := Hh(b, c, d, a, x[14], 23, 0xfde5380c);
    Row3(q, x, 32, was, Quad(a, b, c, d));
    was := Quad(a, b, c, d);
    a := Hh(a, b, c, d, x[1], 4, 0xa4beea44);
    d := Hh(d, a, b, c, x[4], 11, 0x4bdecfa9);
    c := Hh(c, d, a, b, x[7], 16, 0xf6bb4b60);
    b := Hh(b, c, d, a, x[10], 23, 0xbebfbc70);
    Row3(q, x, 36, was, Quad(a, b, c, d));
    was := Quad(a, b, c, d);
    a := Hh(a, b, c, d, x[13], 4, 0x289b7ec6);
    d := Hh(d, a, b, c, x[0], 11, 0xeaa127fa);
    c := Hh(c, d, a, b, x[3], 16, 0xd4ef3085);
    b := Hh(b, c, d, a, x[6], 23, 0x4881d05);
    Row3(q, x, 40, was, Quad(a, b, c, d));
    was := Quad(a, b, c, d);
    a := Hh(a, b, c, d, x[9], 4, 0xd9d4d039);
    d := Hh(d, a, b, c, x[12], 11, 0xe6db99e5);
    c := Hh(c, d, a, b, x[15], 16, 0x1fa27cf8);
    b := Hh(b, c, d, a, x[2], 23, 0xc4ac5665);
    Row3(q, x, 44, was, Quad(a, b, c, d));
    was := Quad(a, b, c, d);
  }

  method Round4(ghost q: Quad, x: seq<Word>, a0: Word, b0: Word, c0: Word, d0: Word) returns (a: Word, b: Word, c: Word, d: Word)
    requires |x| == 16 && Quad(a0, b0, c0, d0) == Steps(q, x, 48)
    ensures Quad(a, b, c, d) == Steps(q, x, 64)
  {
    hide Steps, Ii;
    a, b, c, d := a0, b0, c0, d0;
    ghost var was := Quad(a, b, c, d);
    a := Ii(a, b, c, d, x[0], 6, 0xf4292244);
    d := Ii(d, a, b, c, x[7], 10, 0x432aff97);
    c := Ii(c, d, a, b, x[14], 15, 0xab9423a7);
    b := Ii(b, c, d, a, x[5], 21, 0xfc93a039);
    Row4(q, x, 48, was, Quad(a, b, c, d));
    was := Quad(a, b, c, d);
    a := Ii(a, b, c, d, x[12], 6, 0x655b59c3);
    d := Ii(d, a, b, c, x[3], 10, 0x8f0ccc92);
    c := Ii(c, d, a, b, x[10], 15, 0xffeff47d);
    b := Ii(b, c, d, a, x[1], 21, 0x85845dd1);
    Row4(q, x, 52, was, Quad(a, b, c, d));
    was := Quad(a, b, c, d);
    a := Ii(a, b, c, d, x[8], 6, 0x6fa87e4f);
    d := Ii(d, a, b, c, x[15], 10, 0xfe2ce6e0);
    c := Ii(c, d, a, b, x[6], 15, 0xa3014314);
    b := Ii(b, c, d, a, x[13], 21, 0x4e0811a1);
    Row4(q, x, 56, was, Quad(a, b, c, d));
    was := Quad(a, b, c, d);
    a := Ii(a, b, c, d, x[4], 6, 0xf7537e82);
    d := Ii(d, a, b, c, x[11], 10, 0xbd3af235);
    c := Ii(c, d, a, b, x[2], 15, 0x2ad7d2bb);
    b := Ii(b, c, d, a, x[9], 21, 0xeb86d391);
    Row4(q, x, 60, was, Quad(a, b, c, d));
    was := Quad(a, b, c, d);
  }

  /** MD5Transform */
  method Transform(state: array<Word>, block: seq<Byte>)
    requires state.Length == 4 && |block| == 64
    modifies state
    ensures Registers(state[..]) == old(Compress(Registers(state[..]), block))
  {
    hide Steps, WordsOf;
    ghost var q := Registers(state[..]);
    var a, b, c, d := state[0], state[1], state[2], state[3];
    var x := Decode(block);
    StepsNone(q, x);
    a, b, c, d := Round1(q, x, a, b, c, d);
    a, b, c, d := Round2(q, x, a, b, c, d);
    a, b, c, d := Round3(q, x, a, b, c, d);
    a, b, c, d := Round4(q, x, a, b, c, d);
    state[0] := Add(state[0], a);
    state[1] := Add(state[1], b);
    state[2] := Add(state[2], c);
    state[3] := Add(state[3], d);
  }

  lemma StepsNone(q: Quad, x: seq<Word>)
    requires |x| == 16
    ensures Steps(q, x, 0) == q
  {
  }

  function Registers(s: seq<Word>): Quad
    requires |s| == 4
  {
    Quad(s[0], s[1], s[2], s[3])
  }

  /** Decode */
  method Decode(input: seq<Byte>) returns (x: seq<Word>)
    requires |input| == 64
    ensures x == WordsOf(input)
  {
    var output := new Word[16];
    var i, j := 0, 0;
    while j < 64
      invariant j == 4 * i && i <= 16 && forall k :: 0 <= k < i ==> output[k] == WordAt(input, k)
    {
      output[i] := input[j] as int + input[j + 1] as int * 0x100 + input[j + 2] as int * 0x1_0000 + input[j + 3] as int * 0x100_0000;
      i, j := i + 1, j + 4;
    }
    x := output[..];
  }

  function Encoded(s: seq<Word>): (r: seq<Byte>)
    ensures |r| == 4 * |s|
  {
    if s == [] then [] else Encoded(s[..|s| - 1]) + BytesOf(s[|s| - 1])
  }

  /** Encode */
  method Encode(input: seq<Word>) returns (output: array<Byte>)
    ensures fresh(output) && output[..] == Encoded(input)
  {
    output := new Byte[4 * |input|];
    var i, j := 0, 0;
    while j < 4 * |input|
      invariant j == 4 * i && i <= |input| && output[..j] == Encoded(input[..i])
    {
      ghost var done := output[..j];
      output[j] := (input[i] % 256) as Byte;
      output[j + 1] := (input[i] / 0x100 % 256) as Byte;
      output[j + 2] := (input[i] / 0x1_0000 % 256) as Byte;
      output[j + 3] := (input[i] / 0x100_0000 % 256) as Byte;
      assert output[..j + 4] == done + BytesOf(input[i]);
      assert input[..i + 1][..i] == input[..i];
      i, j := i + 1, j + 4;
    }
    assert input[..|input|] == input;
    assert output[..j] == output[..];
  }

  // ----- the context --------------------------------------------------------------------------------

  const PADDING: seq<Byte> := [0x80] + Zeros(63)

  /** The number of bits, in two words of 32 bits. */
  function Count(low: Word, high: Word): nat {
    low + high * UNSIGNED_INT
  }

  /** The carry code of MD5Update counts bits modulo 2^64. */
  lemma CountAdds(low: Word, high: Word, len: nat, n: nat)
    requires len < UNSIGNED_INT && Count(low, high) == 8 * n % UNSIGNED_LONG
    ensures var part := 8 * len % UNSIGNED_INT;
            var low1 := (low + part) % UNSIGNED_INT;
            var high1 := (high + (if low1 < part then 1 else 0) + len / 0x2000_0000) % UNSIGNED_INT;
            Count(low1, high1) == 8 * (n + len) % UNSIGNED_LONG
  {
    var part, carried := 8 * len % UNSIGNED_INT, len / 0x2000_0000;
    var low1 := (low + part) % UNSIGNED_INT;
    var carry := if low1 < part then 1 else 0;
    assert 8 * len == carried * UNSIGNED_INT + part;
    assert low + part == low1 + carry * UNSIGNED_INT;
    var high1 := (high + carry + carried) % UNSIGNED_INT;
    var wraps := (high + carry + carried) / UNSIGNED_INT;
    assert Count(low, high) + 8 * len == Count(low1, high1) + wraps * UNSIGNED_LONG;
    Wraps(8 * n, 8 * len, Count(low1, high1), wraps);
  }

  lemma TwoSteps(high: Word, carry: nat, more: nat)
    requires carry <= 1
    ensures ((if carry == 1 then (high + 1) % UNSIGNED_INT else high) + more) % UNSIGNED_INT == (high + carry + more) % UNSIGNED_INT
  {
  }

  lemma Wraps(a: nat, b: nat, c: nat, k: nat)
    requires a % UNSIGNED_LONG + b == c + k * UNSIGNED_LONG && c < UNSIGNED_LONG
    ensures (a + b) % UNSIGNED_LONG == c
  {
    assert a == a / UNSIGNED_LONG * UNSIGNED_LONG + a % UNSIGNED_LONG;
    ModDrops(a / UNSIGNED_LONG + k, c);
  }

  lemma ModDrops(h: nat, l: nat)
    requires l < UNSIGNED_LONG
    ensures (h * UNSIGNED_LONG + l) % UNSIGNED_LONG == l
  {
  }

  /** The low word tells how many bytes wait in the buffer. */
  lemma IndexOfCount(low: Word, high: Word, n: nat)
    requires Count(low, high) == 8 * n % UNSIGNED_LONG
    ensures low / 8 % 64 == n % 64
  {
    var k := 8 * n / UNSIGNED_LONG;
    assert 8 * n == k * UNSIGNED_LONG + low + high * UNSIGNED_INT;
    assert low % 8 == 0 && low / 8 == n - k * (UNSIGNED_LONG / 8) - high * (UNSIGNED_INT / 8);
    assert n == 64 * (k * (UNSIGNED_LONG / 512) + high * (UNSIGNED_INT / 512)) + low / 8;
    Drop64(k * (UNSIGNED_LONG / 512) + high * (UNSIGNED_INT / 512), low / 8);
  }

  lemma Drop64(h: nat, l: nat)
    ensures (64 * h + l) % 64 == l % 64
  {
  }

  /** Where the whole blocks of an input are done, the loop of MD5Update stops exactly when the bytes that
      waited and the input come to less than 2^32 bytes. */
  lemma StopsExactly(index: nat, len: nat, i: nat)
    requires index < 64 && i <= len < UNSIGNED_INT && (index + i) % 64 == 0
    ensures len < i + 64 ==> ((i + 63) % UNSIGNED_INT >= len <==> index + len < UNSIGNED_INT)
    ensures len < i + 64 && index + len >= UNSIGNED_INT ==> i == UNSIGNED_INT - index
    ensures i + 64 <= len ==> (i + 63) % UNSIGNED_INT < len && (i + 64) % UNSIGNED_INT == i + 64
  {
    if len < i + 64 {
      var k := (index + i) / 64;
      assert index + i == 64 * k;
      if index + len >= UNSIGNED_INT {
        assert k >= UNSIGNED_INT / 64;
      }
    }
  }

  lemma Complement(n: nat)
    ensures (n + (64 - n % 64)) % 64 == 0 && (n % 64 + (64 - n % 64)) % 64 == 0
  {
    assert n + (64 - n % 64) == 64 * (n / 64 + 1);
  }

  /** One byte waits, and 2^32 - 1 more are given: behind the last whole block the bound is 62. */
  lemma OneByteTooMany()
    ensures var len, i := UNSIGNED_INT - 1, UNSIGNED_INT - 1;
            && (1 + i) % 64 == 0 && len < i + 64 && (i + 63) % UNSIGNED_INT == 62 < len
  {
  }

  class Context {
    const state: array<Word>
    const count: array<Word>
    const buffer: array<Byte>
    /** Everything that has been given to the context. */
    ghost var message: seq<Byte>

    ghost predicate Valid()
      reads this, state, count, buffer
    {
      && Shapes() && Count(count[0], count[1]) == 8 * |message| % UNSIGNED_LONG
      && Registers(state[..]) == Absorb(INIT, Whole(message))
      && buffer[..|message| % 64] == Rest(message)
    }

    /** MD5Init */
    constructor ()
      ensures Valid() && message == []
      ensures fresh(state) && fresh(count) && fresh(buffer)
    {
      state, count, buffer := new Word[4], new Word[2], new Byte[64];
      message := [];
      new;
      count[0], count[1] := 0, 0;
      state[0], state[1], state[2], state[3] := 0x67452301, 0xefcdab89, 0x98badcfe, 0x10325476;
      assert state[..] == [0x67452301, 0xefcdab89, 0x98badcfe, 0x10325476];
    }

    /** MD5_memcpy into the buffer. */
    method Fill(index: nat, input: seq<Byte>)
      requires index + |input| <= buffer.Length
      modifies buffer
      ensures buffer[..index + |input|] == old(buffer[..index]) + input
    {
      for k := 0 to |input|
        invariant buffer[..index + k] == old(buffer[..index]) + input[..k]
      {
        buffer[index + k] := input[k];
        assert buffer[..index + k + 1] == buffer[..index + k] + [input[k]];
      }
      assert input[..|input|] == input;
    }

    /** The number of bits in MD5Update. */
    method CountBits(len: nat, ghost n: nat)
      requires count.Length == 2 && len < UNSIGNED_INT && Count(count[0], count[1]) == 8 * n % UNSIGNED_LONG
      modifies count
      ensures Count(count[0], count[1]) == 8 * (n + len) % UNSIGNED_LONG
    {
      hide Count;
      CountAdds(count[0], count[1], len, n);
      ghost var low, high := count[0], count[1];
      var part := 8 * len % UNSIGNED_INT;
      count[0] := (count[0] + part) % UNSIGNED_INT;
      if count[0] < part {
        count[1] := (count[1] + 1) % UNSIGNED_INT;
      }
      TwoSteps(high, if count[0] < part then 1 else 0, len / 0x2000_0000);
      count[1] := (count[1] + len / 0x2000_0000) % UNSIGNED_INT;
    }

    /** The buffer is filled up and transformed. */
    method FirstBlock(index: nat, part: seq<Byte>)
      requires Shapes() && index + |part| == 64 && buffer[..index] == Rest(message)
      requires Registers(state[..]) == Absorb(INIT, Whole(message))
      modifies state, buffer
      ensures Registers(state[..]) == Absorb(INIT, message + part) && (|message| + |part|) % 64 == 0
    {
      hide Absorb, Compress, Registers, Whole, Rest;
      Fill(index, part);
      SplitsAt(message, part);
      assert buffer[..] == buffer[..64];
      Transform(state, buffer[..]);
      AbsorbOne(Whole(message), Rest(message) + part);
    }

    /** The whole blocks of the input from `start` on. The counter and the bound of the loop are an unsigned
        int; when the bound wraps, the loop reads behind the end of the input. */
    method MoreBlocks(input: seq<Byte>, start: nat) returns (ok: bool, i: nat)
      requires state.Length == 4 && start <= |input| < UNSIGNED_INT && start == 64 - |message| % 64
      requires Registers(state[..]) == Absorb(INIT, message + input[..start])
      modifies state
      ensures start <= i <= |input| && |input| - i < 64 && (|message| + i) % 64 == 0
      ensures Registers(state[..]) == Absorb(INIT, message + input[..i])
      ensures ok <==> |message| % 64 + |input| < UNSIGNED_INT
      ensures !ok ==> (i + 64) % UNSIGNED_INT == start
    {
      hide Absorb, Compress, Registers;
      i := start;
      Complement(|message|);
      while (i + 63) % UNSIGNED_INT < |input|
        invariant start <= i <= |input| && (|message| + i) % 64 == 0 && (|message| % 64 + i) % 64 == 0
        invariant Registers(state[..]) == Absorb(INIT, message + input[..i])
        decreases |input| - i
      {
        StopsExactly(|message| % 64, |input|, i);
        if |input| < i + 64 {
          return false, i;
        }
        Transform(state, input[i..i + 64]);
        AbsorbOne(message + input[..i], input[i..i + 64]);
        assert message + input[..i] + input[i..i + 64] == message + input[..i + 64];
        i := (i + 64) % UNSIGNED_INT;
      }
      StopsExactly(|message| % 64, |input|, i);
      ok := true;
    }

    ghost predicate Shapes() {
      state.Length == 4 && count.Length == 2 && buffer.Length == 64 && state != count
    }

    /** MD5Update: the input is absorbed, unless with the bytes that wait it comes to 2^32; then the loop
        reads behind its end. */
    method Update(input: seq<Byte>) returns (ok: bool)
      requires Valid() && |input| < UNSIGNED_INT
      modifies this, state, count, buffer
      ensures ok <==> |old(message)| % 64 + |input| < UNSIGNED_INT
      ensures ok ==> Valid() && message == old(message) + input
    {
      hide Absorb, Registers, Whole, Rest, Count;
      ghost var m := message;
      var len := |input|;
      IndexOfCount(count[0], count[1], |m|);
      var index := count[0] / 8 % 64;
      CountBits(len, |m|);
      var partLen := 64 - index;
      var i := 0;
      if len >= partLen {
        FirstBlock(index, input[..partLen]);
        ok, i := MoreBlocks(input, partLen);
        if !ok {
          return;
        }
        index := 0;
        SplitBehind(m, input, i);
      } else {
        SplitShort(m, input);
      }
      Fill(index, input[i..]);
      message := m + input;
      ok := true;
    }

    /** MD5Final: the digest of everything that was given, and a context of zeros. */
    method Final() returns (digest: array<Byte>)
      requires Valid()
      modifies this, state, count, buffer
      ensures fresh(digest) && digest[..] == Digest(old(message)) && Cleared()
    {
      hide Absorb, Registers, Padding, LengthBytes, Whole, Rest, Encoded, Output;
      ghost var m := message;
      var bits := Encode(count[..]);
      assert count[..] == [count[0], count[1]];
      LengthEncoded(count[0], count[1], |m|);
      IndexOfCount(count[0], count[1], |m|);
      var index := count[0] / 8 % 64;
      var padLen := if index < 56 then 56 - index else 120 - index;
      PaddingIs(|m|);
      var ok := Update(PADDING[..padLen]);
      ok := Update(bits[..]);
      WholeOfPadded(m);
      digest := Encode(state[..]);
      OutputEncoded(state[..]);
      Clear();
    }

    ghost predicate Cleared()
      reads state, count, buffer
    {
      && (forall k :: 0 <= k < state.Length ==> state[k] == 0) && (forall k :: 0 <= k < count.Length ==> count[k] == 0)
      && forall k :: 0 <= k < buffer.Length ==> buffer[k] == 0
    }

    /** MD5_memset of the whole context. */
    method Clear()
      modifies state, count, buffer
      ensures Cleared()
    {
      for k := 0 to state.Length
        invariant forall j :: 0 <= j < k ==> state[j] == 0
      {
        state[k] := 0;
      }
      for k := 0 to count.Length
        invariant forall j :: 0 <= j < k ==> count[j] == 0
        invariant forall j :: 0 <= j < state.Length ==> state[j] == 0
      {
        count[k] := 0;
      }
      for k := 0 to buffer.Length
        invariant forall j :: 0 <= j < k ==> buffer[j] == 0
        invariant forall j :: 0 <= j < state.Length ==> state[j] == 0
        invariant forall j :: 0 <= j < count.Length ==> count[j] == 0
      {
        buffer[k] := 0;
      }
    }
  }

  lemma WholeOfPadded(m: seq<Byte>)
    ensures var p := m + Padding(|m|) + LengthBytes(|m|); Whole(p) == p
  {
    hide Padding, LengthBytes;
    PaddedIsWhole(m);
  }

  lemma SplitBehind(m: seq<Byte>, input: seq<Byte>, i: nat)
    requires i <= |input| && (|m| + i) % 64 == 0 && |input| - i < 64
    ensures Whole(m + input) == m + input[..i] && Rest(m + input) == [] + input[i..]
  {
    assert m + input == m + input[..i] + input[i..];
    SplitIs(m + input, m + input[..i], input[i..]);
    assert [] + input[i..] == input[i..];
  }

  lemma SplitShort(m: seq<Byte>, input: seq<Byte>)
    requires |m| % 64 + |input| < 64
    ensures Whole(m + input) == Whole(m) && Rest(m + input) == Rest(m) + input[0..]
  {
    assert m == Whole(m) + Rest(m);
    assert m + input == Whole(m) + (Rest(m) + input);
    SplitIs(m + input, Whole(m), Rest(m) + input);
  }

  lemma LengthEncoded(low: Word, high: Word, n: nat)
    requires Count(low, high) == 8 * n % UNSIGNED_LONG
    ensures Encoded([low, high]) == LengthBytes(n)
  {
    hide BytesOf;
    assert [low, high][..1] == [low] && [low][..0] == [];
    assert Encoded([low]) == [] + BytesOf(low) == BytesOf(low);
  }

  lemma OutputEncoded(s: seq<Word>)
    requires |s| == 4
    ensures Encoded(s) == Output(Registers(s))
  {
    hide BytesOf;
    assert s[..3][..2] == s[..2] && s[..2][..1] == s[..1] && s[..1][..0] == [];
    assert Encoded(s[..1]) == [] + BytesOf(s[0]) == BytesOf(s[0]);
    assert Encoded(s[..2]) == BytesOf(s[0]) + BytesOf(s[1]);
    assert Encoded(s[..3]) == BytesOf(s[0]) + BytesOf(s[1]) + BytesOf(s[2]);
  }

  lemma {:induction false} ZerosTake(n: nat, k: nat)
    requires k <= n
    ensures Zeros(n)[..k] == Zeros(k)
  {
    if k > 0 {
      ZerosTake(n - 1, k - 1);
      assert Zeros(n)[..k] == [0] + Zeros(n - 1)[..k - 1];
    }
  }

  /** The padding code of MD5Final is the rule of section 3.1. */
  lemma PaddingIs(n: nat)
    ensures |PADDING| == 64
    ensures PADDING[..if n % 64 < 56 then 56 - n % 64 else 120 - n % 64] == Padding(n)
  {
    hide Zeros;
    var index := n % 64;
    var padLen := if index < 56 then 56 - index else 120 - index;
    assert (55 - n) % 64 == padLen - 1;
    ZerosTake(63, padLen - 1);
    assert PADDING[..padLen] == [0x80] + Zeros(63)[..padLen - 1];
  }

  lemma AbsorbOne(w: seq<Byte>, b: seq<Byte>)
    requires |w| % 64 == 0 && |b| == 64
    ensures Absorb(INIT, w + b) == Compress(Absorb(INIT, w), b)
  {
    hide Compress;
    var q := Absorb(INIT, w);
    AbsorbJoins(INIT, w, b);
    assert b[..64] == b && b[64..] == [];
    assert Absorb(Compress(q, b), []) == Compress(q, b);
  }

  lemma SplitIs(m: seq<Byte>, w: seq<Byte>, r: seq<Byte>)
    requires m == w + r && |w| % 64 == 0 && |r| < 64
    ensures Whole(m) == w && Rest(m) == r
  {
  }

  lemma SplitsAt(m: seq<Byte>, p: seq<Byte>)
    requires |p| == 64 - |m| % 64
    ensures Whole(m) + (Rest(m) + p) == m + p && (|m| + |p|) % 64 == 0
  {
    assert m == Whole(m) + Rest(m);
  }

  /** The whole blocks of a message, and what is left. */
  function Whole(m: seq<Byte>): (w: seq<Byte>)
    ensures |w| % 64 == 0
  {
    m[..|m| - |m| % 64]
  }

  function Rest(m: seq<Byte>): (r: seq<Byte>)
    ensures |r| == |m| % 64
  {
    m[|m| - |m| % 64..]
  }

  // ----- util.c ---------------------------------------------------------------------------------------

  const NUL: char := 0 as char

  lemma HexStep(p: seq<Byte>, k: nat)
    requires k <= |p|
    ensures if k == |p| then Hex(p[k..]) == ""
            else Hex(p[k..]) == [HexDigit(p[k] as int / 16), HexDigit(p[k] as int % 16)] + Hex(p[k + 1..])
  {
    hide HexDigit;
    if k < |p| {
      assert p[k..][1..] == p[k + 1..];
    }
  }

  /** cwmp_hex_to_string */
  method HexToString(to: array<char>, p: seq<Byte>)
    requires to.Length > 2 * |p|
    modifies to
    ensures to[..2 * |p|] == Hex(p) && to[2 * |p|] == NUL
  {
    hide HexDigit, Hex;
    var at := 0;
    HexStep(p, 0);
    assert p[0..] == p && to[..0] == "";
    for k := 0 to |p|
      invariant at == 2 * k && to[..at] + Hex(p[k..]) == Hex(p)
    {
      ghost var done := to[..at];
      HexStep(p, k);
      to[at] := HexDigit(p[k] as int / 16);
      to[at + 1] := HexDigit(p[k] as int % 16);
      assert to[..at + 2] == done + [HexDigit(p[k] as int / 16), HexDigit(p[k] as int % 16)];
      at := at + 2;
    }
    HexStep(p, |p|);
    assert to[..at] + "" == to[..at];
    to[at] := NUL;
    assert to[..at] == Hex(p);
  }

  /** convert_to_hex: its own comparisons give the same text. */
  method ConvertToHex(bin: seq<Byte>, hex: array<char>)
    requires |bin| == 16 && hex.Length == 33
    modifies hex
    ensures hex[..32] == Hex(bin) && hex[32] == NUL
  {
    hide Hex;
    assert bin[0..] == bin && hex[..0] == "";
    for i := 0 to 16
      invariant hex[..2 * i] + Hex(bin[i..]) == Hex(bin)
    {
      ghost var done := hex[..2 * i];
      HexStep(bin, i);
      var j := bin[i] as int / 16;
      hex[2 * i] := if j <= 9 then (j + '0' as int) as char else (j + 'a' as int - 10) as char;
      j := bin[i] as int % 16;
      hex[2 * i + 1] := if j <= 9 then (j + '0' as int) as char else (j + 'a' as int - 10) as char;
      assert hex[..2 * (i + 1)] == done + [HexDigit(bin[i] as int / 16), HexDigit(bin[i] as int % 16)];
    }
    HexStep(bin, 16);
    assert hex[..32] + "" == hex[..32];
    hex[32] := NUL;
    assert hex[..32] == Hex(bin);
  }

  function Concat(args: seq<seq<Byte>>): seq<Byte> {
    if args == [] then [] else Concat(args[..|args| - 1]) + args[|args| - 1]
  }

  lemma ConcatSteps(args: seq<seq<Byte>>)
    ensures Concat(args[..0]) == [] && forall k :: 0 <= k < |args| ==> Concat(args[..k + 1]) == Concat(args[..k]) + args[k]
  {
    forall k | 0 <= k < |args| ensures Concat(args[..k + 1]) == Concat(args[..k]) + args[k] {
      assert args[..k + 1][..k] == args[..k];
    }
  }

  /** What MD5Update is given of an argument: its strlen is cut to an unsigned int. */
  function Cut(args: seq<seq<Byte>>): (cut: seq<seq<Byte>>)
    ensures |cut| == |args| && forall k :: 0 <= k < |args| ==> cut[k] == args[k][..|args[k]| % UNSIGNED_INT]
  {
    seq(|args|, k requires 0 <= k < |args| => args[k][..|args[k]| % UNSIGNED_INT])
  }

  /** Arguments are taken whole exactly when each is shorter than 2^32 bytes. */
  lemma CutNothing(args: seq<seq<Byte>>)
    ensures Cut(args) == args <==> forall k :: 0 <= k < |args| ==> |args[k]| < UNSIGNED_INT
  {
    if k :| 0 <= k < |args| && |args[k]| >= UNSIGNED_INT {
      assert |Cut(args)[k]| < UNSIGNED_INT;
    } else {
      assert forall k :: 0 <= k < |args| ==> Cut(args)[k] == args[k];
    }
  }

  /** No update of the arguments, one after the other, comes to 2^32 bytes with those that wait. */
  predicate Absorbed(args: seq<seq<Byte>>) {
    forall k :: 0 <= k < |args| ==> |Concat(args[..k])| % 64 + |args[k]| < UNSIGNED_INT
  }

  /** MD5 of its arguments, which end with the null pointer: the digest of what is given of them, in a row,
      unless one of them makes MD5Update read behind its end. */
  method DigestOf(args: seq<seq<Byte>>) returns (ok: bool, buf: array<char>)
    ensures ok <==> Absorbed(Cut(args))
    ensures fresh(buf) && buf.Length == 33
    ensures ok ==> buf[..32] == Hex(Digest(Concat(Cut(args)))) && buf[32] == NUL
  {
    hide Digest, Hex, Absorb, Registers, Whole, Rest, Count, Concat, Cut;
    buf := new char[33];
    var ctx := new Context();
    ghost var cut := Cut(args);
    ConcatSteps(cut);
    for k := 0 to |args|
      invariant ctx.Valid() && ctx.message == Concat(cut[..k])
      invariant forall j :: 0 <= j < k ==> |Concat(cut[..j])| % 64 + |cut[j]| < UNSIGNED_INT
      invariant fresh(ctx) && fresh(ctx.state) && fresh(ctx.count) && fresh(ctx.buffer)
    {
      var len := |args[k]| % UNSIGNED_INT;
      ok := ctx.Update(args[k][..len]);
      if !ok {
        return;
      }
    }
    assert cut[..|args|] == cut;
    var hash := ctx.Final();
    HexToString(buf, hash[..]);
    ok := true;
  }
}

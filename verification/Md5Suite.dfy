/** The test suite of RFC 1321 (section A.5), computed on bit vectors: the digests of the empty message and of
    "abc". */
module Md5Suite {
  import opened Bits
  import opened Md5Spec
  import opened Md5Vectors
  import opened Words

  // ----- the tables -----------------------------------------------------------------------------------

  /** Line `i` of the tables: which word of the block, what value, and how far. */
  predicate Row(i: nat, j: nat, t: Word, n: nat)
    requires i < 64
  {
    Pick(i) == j && Sine(i) == t && Shift(i) == n
  }

  lemma Rows1()
    ensures Row(0, 0, 0xd76aa478, 7)
    ensures Row(1, 1, 0xe8c7b756, 12)
    ensures Row(2, 2, 0x242070db, 17)
    ensures Row(3, 3, 0xc1bdceee, 22)
    ensures Row(4, 4, 0xf57c0faf, 7)
    ensures Row(5, 5, 0x4787c62a, 12)
    ensures Row(6, 6, 0xa8304613, 17)
    ensures Row(7, 7, 0xfd469501, 22)
  {
  }

  lemma Values1()
    ensures Val(0xd76aa478) == 0xd76aa478
    ensures Val(0xe8c7b756) == 0xe8c7b756
    ensures Val(0x242070db) == 0x242070db
    ensures Val(0xc1bdceee) == 0xc1bdceee
    ensures Val(0xf57c0faf) == 0xf57c0faf
    ensures Val(0x4787c62a) == 0x4787c62a
    ensures Val(0xa8304613) == 0xa8304613
    ensures Val(0xfd469501) == 0xfd469501
  {
  }

  lemma Rows2()
    ensures Row(8, 8, 0x698098d8, 7)
    ensures Row(9, 9, 0x8b44f7af, 12)
    ensures Row(10, 10, 0xffff5bb1, 17)
    ensures Row(11, 11, 0x895cd7be, 22)
    ensures Row(12, 12, 0x6b901122, 7)
    ensures Row(13, 13, 0xfd987193, 12)
    ensures Row(14, 14, 0xa679438e, 17)
    ensures Row(15, 15, 0x49b40821, 22)
  {
  }

  lemma Values2()
    ensures Val(0x698098d8) == 0x698098d8
    ensures Val(0x8b44f7af) == 0x8b44f7af
    ensures Val(0xffff5bb1) == 0xffff5bb1
    ensures Val(0x895cd7be) == 0x895cd7be
    ensures Val(0x6b901122) == 0x6b901122
    ensures Val(0xfd987193) == 0xfd987193
    ensures Val(0xa679438e) == 0xa679438e
    ensures Val(0x49b40821) == 0x49b40821
  {
  }

  lemma Rows3()
    ensures Row(16, 1, 0xf61e2562, 5)
    ensures Row(17, 6, 0xc040b340, 9)
    ensures Row(18, 11, 0x265e5a51, 14)
    ensures Row(19, 0, 0xe9b6c7aa, 20)
    ensures Row(20, 5, 0xd62f105d, 5)
    ensures Row(21, 10, 0x2441453, 9)
    ensures Row(22, 15, 0xd8a1e681, 14)
    ensures Row(23, 4, 0xe7d3fbc8, 20)
  {
  }

  lemma Values3()
    ensures Val(0xf61e2562) == 0xf61e2562
    ensures Val(0xc040b340) == 0xc040b340
    ensures Val(0x265e5a51) == 0x265e5a51
    ensures Val(0xe9b6c7aa) == 0xe9b6c7aa
    ensures Val(0xd62f105d) == 0xd62f105d
    ensures Val(0x2441453) == 0x2441453
    ensures Val(0xd8a1e681) == 0xd8a1e681
    ensures Val(0xe7d3fbc8) == 0xe7d3fbc8
  {
  }

  lemma Rows4()
    ensures Row(24, 9, 0x21e1cde6, 5)
    ensures Row(25, 14, 0xc33707d6, 9)
    ensures Row(26, 3, 0xf4d50d87, 14)
    ensures Row(27, 8, 0x455a14ed, 20)
    ensures Row(28, 13, 0xa9e3e905, 5)
    ensures Row(29, 2, 0xfcefa3f8, 9)
    ensures Row(30, 7, 0x676f02d9, 14)
    ensures Row(31, 12, 0x8d2a4c8a, 20)
  {
  }

  lemma Values4()
    ensures Val(0x21e1cde6) == 0x21e1cde6
    ensures Val(0xc33707d6) == 0xc33707d6
    ensures Val(0xf4d50d87) == 0xf4d50d87
    ensures Val(0x455a14ed) == 0x455a14ed
    ensures Val(0xa9e3e905) == 0xa9e3e905
    ensures Val(0xfcefa3f8) == 0xfcefa3f8
    ensures Val(0x676f02d9) == 0x676f02d9
    ensures Val(0x8d2a4c8a) == 0x8d2a4c8a
  {
  }

  lemma Rows5()
    ensures Row(32, 5, 0xfffa3942, 4)
    ensures Row(33, 8, 0x8771f681, 11)
    ensures Row(34, 11, 0x6d9d6122, 16)
    ensures Row(35, 14, 0xfde5380c, 23)
    ensures Row(36, 1, 0xa4beea44, 4)
    ensures Row(37, 4, 0x4bdecfa9, 11)
    ensures Row(38, 7, 0xf6bb4b60, 16)
    ensures Row(39, 10, 0xbebfbc70, 23)
  {
  }

  lemma Values5()
    ensures Val(0xfffa3942) == 0xfffa3942
    ensures Val(0x8771f681) == 0x8771f681
    ensures Val(0x6d9d6122) == 0x6d9d6122
    ensures Val(0xfde5380c) == 0xfde5380c
    ensures Val(0xa4beea44) == 0xa4beea44
    ensures Val(0x4bdecfa9) == 0x4bdecfa9
    ensures Val(0xf6bb4b60) == 0xf6bb4b60
    ensures Val(0xbebfbc70) == 0xbebfbc70
  {
  }

  lemma Rows6()
    ensures Row(40, 13, 0x289b7ec6, 4)
    ensures Row(41, 0, 0xeaa127fa, 11)
    ensures Row(42, 3, 0xd4ef3085, 16)
    ensures Row(43, 6, 0x4881d05, 23)
    ensures Row(44, 9, 0xd9d4d039, 4)
    ensures Row(45, 12, 0xe6db99e5, 11)
    ensures Row(46, 15, 0x1fa27cf8, 16)
    ensures Row(47, 2, 0xc4ac5665, 23)
  {
  }

  lemma Values6()
    ensures Val(0x289b7ec6) == 0x289b7ec6
    ensures Val(0xeaa127fa) == 0xeaa127fa
    ensures Val(0xd4ef3085) == 0xd4ef3085
    ensures Val(0x4881d05) == 0x4881d05
    ensures Val(0xd9d4d039) == 0xd9d4d039
    ensures Val(0xe6db99e5) == 0xe6db99e5
    ensures Val(0x1fa27cf8) == 0x1fa27cf8
    ensures Val(0xc4ac5665) == 0xc4ac5665
  {
  }

  lemma Rows7()
    ensures Row(48, 0, 0xf4292244, 6)
    ensures Row(49, 7, 0x432aff97, 10)
    ensures Row(50, 14, 0xab9423a7, 15)
    ensures Row(51, 5, 0xfc93a039, 21)
    ensures Row(52, 12, 0x655b59c3, 6)
    ensures Row(53, 3, 0x8f0ccc92, 10)
    ensures Row(54, 10, 0xffeff47d, 15)
    ensures Row(55, 1, 0x85845dd1, 21)
  {
  }

  lemma Values7()
    ensures Val(0xf4292244) == 0xf4292244
    ensures Val(0x432aff97) == 0x432aff97
    ensures Val(0xab9423a7) == 0xab9423a7
    ensures Val(0xfc93a039) == 0xfc93a039
    ensures Val(0x655b59c3) == 0x655b59c3
    ensures Val(0x8f0ccc92) == 0x8f0ccc92
    ensures Val(0xffeff47d) == 0xffeff47d
    ensures Val(0x85845dd1) == 0x85845dd1
  {
  }

  lemma Rows8()
    ensures Row(56, 8, 0x6fa87e4f, 6)
    ensures Row(57, 15, 0xfe2ce6e0, 10)
    ensures Row(58, 6, 0xa3014314, 15)
    ensures Row(59, 13, 0x4e0811a1, 21)
    ensures Row(60, 4, 0xf7537e82, 6)
    ensures Row(61, 11, 0xbd3af235, 10)
    ensures Row(62, 2, 0x2ad7d2bb, 15)
    ensures Row(63, 9, 0xeb86d391, 21)
  {
  }

  lemma Values8()
    ensures Val(0x6fa87e4f) == 0x6fa87e4f
    ensures Val(0xfe2ce6e0) == 0xfe2ce6e0
    ensures Val(0xa3014314) == 0xa3014314
    ensures Val(0x4e0811a1) == 0x4e0811a1
    ensures Val(0xf7537e82) == 0xf7537e82
    ensures Val(0xbd3af235) == 0xbd3af235
    ensures Val(0x2ad7d2bb) == 0x2ad7d2bb
    ensures Val(0xeb86d391) == 0xeb86d391
  {
  }

  // ----- one block --------------------------------------------------------------------------------------

  /** The registers after `n` operations on the block. */
  predicate After(x: seq<Word>, n: nat, q: Vectors)
    requires n <= 64 && |x| == 16
  {
    Steps(INIT, x, n) == ValQuad(q)
  }

  // One operation of each round: word `j` of the block is `k`, the table holds `t`, and the registers become `r`.

  lemma Next1(x: seq<Word>, i: nat, q: Vectors, j: nat, k: bv32, t: bv32, w: Word, n: nat, r: Vectors)
    requires 0 <= i < 16 && |x| == 16 && After(x, i, q)
    requires j < 16 && x[j] == Val(k) && Row(i, j, w, n) && Val(t) == w && Turn(q, Mix1(q.b, q.c, q.d), k, t, n) == r
    ensures After(x, i + 1, r)
  {
    hide Val, Turn, Step, F, G, H, I, Mix1, Mix2, Mix3, Mix4;
    MixesAre(q.b, q.c, q.d);
    TurnIs(q, x, i, Mix1(q.b, q.c, q.d), k, t, n);
  }

  lemma Next2(x: seq<Word>, i: nat, q: Vectors, j: nat, k: bv32, t: bv32, w: Word, n: nat, r: Vectors)
    requires 16 <= i < 32 && |x| == 16 && After(x, i, q)
    requires j < 16 && x[j] == Val(k) && Row(i, j, w, n) && Val(t) == w && Turn(q, Mix2(q.b, q.c, q.d), k, t, n) == r
    ensures After(x, i + 1, r)
  {
    hide Val, Turn, Step, F, G, H, I, Mix1, Mix2, Mix3, Mix4;
    MixesAre(q.b, q.c, q.d);
    TurnIs(q, x, i, Mix2(q.b, q.c, q.d), k, t, n);
  }

  lemma Next3(x: seq<Word>, i: nat, q: Vectors, j: nat, k: bv32, t: bv32, w: Word, n: nat, r: Vectors)
    requires 32 <= i < 48 && |x| == 16 && After(x, i, q)
    requires j < 16 && x[j] == Val(k) && Row(i, j, w, n) && Val(t) == w && Turn(q, Mix3(q.b, q.c, q.d), k, t, n) == r
    ensures After(x, i + 1, r)
  {
    hide Val, Turn, Step, F, G, H, I, Mix1, Mix2, Mix3, Mix4;
    MixesAre(q.b, q.c, q.d);
    TurnIs(q, x, i, Mix3(q.b, q.c, q.d), k, t, n);
  }

  lemma Next4(x: seq<Word>, i: nat, q: Vectors, j: nat, k: bv32, t: bv32, w: Word, n: nat, r: Vectors)
    requires 48 <= i < 64 && |x| == 16 && After(x, i, q)
    requires j < 16 && x[j] == Val(k) && Row(i, j, w, n) && Val(t) == w && Turn(q, Mix4(q.b, q.c, q.d), k, t, n) == r
    ensures After(x, i + 1, r)
  {
    hide Val, Turn, Step, F, G, H, I, Mix1, Mix2, Mix3, Mix4;
    MixesAre(q.b, q.c, q.d);
    TurnIs(q, x, i, Mix4(q.b, q.c, q.d), k, t, n);
  }

  lemma Starts(x: seq<Word>)
    requires |x| == 16
    ensures After(x, 0, Vectors(0x67452301, 0xefcdab89, 0x98badcfe, 0x10325476))
  {
  }

  // ----- the empty message ---------------------------------------------------------------------------

  predicate IsEmpty(x: seq<Word>) {
    |x| == 16 && x[0] == 0x80 && x[1] == 0x0 && x[2] == 0x0 && x[3] == 0x0 && x[4] == 0x0 && x[5] == 0x0 && x[6] == 0x0 && x[7] == 0x0 && x[8] == 0x0 && x[9] == 0x0 && x[10] == 0x0 && x[11] == 0x0 && x[12] == 0x0 && x[13] == 0x0 && x[14] == 0x0 && x[15] == 0x0
  }

  lemma EmptyValues()
    ensures Val(0x0) == 0x0 && Val(0x80) == 0x80
  {
  }

  lemma Empty0(x: seq<Word>)
    requires IsEmpty(x) && After(x, 0, Vectors(0x67452301, 0xefcdab89, 0x98badcfe, 0x10325476))
    ensures After(x, 4, Vectors(0xa5202774, 0x1b163203, 0xe7f06b23, 0xf59592dd))
  {
    hide After, Row, Val, ValQuad;
    Rows1();
    Values1();
    EmptyValues();
    Next1(x, 0, Vectors(0x67452301, 0xefcdab89, 0x98badcfe, 0x10325476), 0, 0x80, 0xd76aa478, 0xd76aa478, 7, Vectors(0x10325476, 0xa5202774, 0xefcdab89, 0x98badcfe));
    Next1(x, 1, Vectors(0x10325476, 0xa5202774, 0xefcdab89, 0x98badcfe), 1, 0x0, 0xe8c7b756, 0xe8c7b756, 12, Vectors(0x98badcfe, 0xf59592dd, 0xa5202774, 0xefcdab89));
    Next1(x, 2, Vectors(0x98badcfe, 0xf59592dd, 0xa5202774, 0xefcdab89), 2, 0x0, 0x242070db, 0x242070db, 17, Vectors(0xefcdab89, 0xe7f06b23, 0xf59592dd, 0xa5202774));
    Next1(x, 3, Vectors(0xefcdab89, 0xe7f06b23, 0xf59592dd, 0xa5202774), 3, 0x0, 0xc1bdceee, 0xc1bdceee, 22, Vectors(0xa5202774, 0x1b163203, 0xe7f06b23, 0xf59592dd));
  }

  lemma Empty1(x: seq<Word>)
    requires IsEmpty(x) && After(x, 4, Vectors(0xa5202774, 0x1b163203, 0xe7f06b23, 0xf59592dd))
    ensures After(x, 8, Vectors(0x32033344, 0x9bc13ce9, 0xf5b158db, 0x2f35d494))
  {
    hide After, Row, Val, ValQuad;
    Rows1();
    Values1();
    EmptyValues();
    Next1(x, 4, Vectors(0xa5202774, 0x1b163203, 0xe7f06b23, 0xf59592dd), 4, 0x0, 0xf57c0faf, 0xf57c0faf, 7, Vectors(0xf59592dd, 0x32033344, 0x1b163203, 0xe7f06b23));
    Next1(x, 5, Vectors(0xf59592dd, 0x32033344, 0x1b163203, 0xe7f06b23), 5, 0x0, 0x4787c62a, 0x4787c62a, 12, Vectors(0xe7f06b23, 0x2f35d494, 0x32033344, 0x1b163203));
    Next1(x, 6, Vectors(0xe7f06b23, 0x2f35d494, 0x32033344, 0x1b163203), 6, 0x0, 0xa8304613, 0xa8304613, 17, Vectors(0x1b163203, 0xf5b158db, 0x2f35d494, 0x32033344));
    Next1(x, 7, Vectors(0x1b163203, 0xf5b158db, 0x2f35d494, 0x32033344), 7, 0x0, 0xfd469501, 0xfd469501, 22, Vectors(0x32033344, 0x9bc13ce9, 0xf5b158db, 0x2f35d494));
  }

  lemma Empty2(x: seq<Word>)
    requires IsEmpty(x) && After(x, 8, Vectors(0x32033344, 0x9bc13ce9, 0xf5b158db, 0x2f35d494))
    ensures After(x, 12, Vectors(0x3893b991, 0x70768a29, 0xe1ef0576, 0xfce4a312))
  {
    hide After, Row, Val, ValQuad;
    Rows2();
    Values2();
    EmptyValues();
    Next1(x, 8, Vectors(0x32033344, 0x9bc13ce9, 0xf5b158db, 0x2f35d494), 8, 0x0, 0x698098d8, 0x698098d8, 7, Vectors(0x2f35d494, 0x3893b991, 0x9bc13ce9, 0xf5b158db));
    Next1(x, 9, Vectors(0x2f35d494, 0x3893b991, 0x9bc13ce9, 0xf5b158db), 9, 0x0, 0x8b44f7af, 0x8b44f7af, 12, Vectors(0xf5b158db, 0xfce4a312, 0x3893b991, 0x9bc13ce9));
    Next1(x, 10, Vectors(0xf5b158db, 0xfce4a312, 0x3893b991, 0x9bc13ce9), 10, 0x0, 0xffff5bb1, 0xffff5bb1, 17, Vectors(0x9bc13ce9, 0xe1ef0576, 0xfce4a312, 0x3893b991));
    Next1(x, 11, Vectors(0x9bc13ce9, 0xe1ef0576, 0xfce4a312, 0x3893b991), 11, 0x0, 0x895cd7be, 0x895cd7be, 22, Vectors(0x3893b991, 0x70768a29, 0xe1ef0576, 0xfce4a312));
  }

  lemma Empty3(x: seq<Word>)
    requires IsEmpty(x) && After(x, 12, Vectors(0x3893b991, 0x70768a29, 0xe1ef0576, 0xfce4a312))
    ensures After(x, 16, Vectors(0xf56c7cf1, 0xd6819c6a, 0x5aa53f75, 0x374943a7))
  {
    hide After, Row, Val, ValQuad;
    Rows2();
    Values2();
    EmptyValues();
    Next1(x, 12, Vectors(0x3893b991, 0x70768a29, 0xe1ef0576, 0xfce4a312), 12, 0x0, 0x6b901122, 0x6b901122, 7, Vectors(0xfce4a312, 0xf56c7cf1, 0x70768a29, 0xe1ef0576));
    Next1(x, 13, Vectors(0xfce4a312, 0xf56c7cf1, 0x70768a29, 0xe1ef0576), 13, 0x0, 0xfd987193, 0xfd987193, 12, Vectors(0xe1ef0576, 0x374943a7, 0xf56c7cf1, 0x70768a29));
    Next1(x, 14, Vectors(0xe1ef0576, 0x374943a7, 0xf56c7cf1, 0x70768a29), 14, 0x0, 0xa679438e, 0xa679438e, 17, Vectors(0x70768a29, 0x5aa53f75, 0x374943a7, 0xf56c7cf1));
    Next1(x, 15, Vectors(0x70768a29, 0x5aa53f75, 0x374943a7, 0xf56c7cf1), 15, 0x0, 0x49b40821, 0x49b40821, 22, Vectors(0xf56c7cf1, 0xd6819c6a, 0x5aa53f75, 0x374943a7));
  }

  lemma Empty4(x: seq<Word>)
    requires IsEmpty(x) && After(x, 16, Vectors(0xf56c7cf1, 0xd6819c6a, 0x5aa53f75, 0x374943a7))
    ensures After(x, 20, Vectors(0x1c7d7513, 0xbd782e17, 0xc095f13a, 0x7bd57a3a))
  {
    hide After, Row, Val, ValQuad;
    Rows3();
    Values3();
    EmptyValues();
    Next2(x, 16, Vectors(0xf56c7cf1, 0xd6819c6a, 0x5aa53f75, 0x374943a7), 1, 0x0, 0xf61e2562, 0xf61e2562, 5, Vectors(0x374943a7, 0x1c7d7513, 0xd6819c6a, 0x5aa53f75));
    Next2(x, 17, Vectors(0x374943a7, 0x1c7d7513, 0xd6819c6a, 0x5aa53f75), 6, 0x0, 0xc040b340, 0xc040b340, 9, Vectors(0x5aa53f75, 0x7bd57a3a, 0x1c7d7513, 0xd6819c6a));
    Next2(x, 18, Vectors(0x5aa53f75, 0x7bd57a3a, 0x1c7d7513, 0xd6819c6a), 11, 0x0, 0x265e5a51, 0x265e5a51, 14, Vectors(0xd6819c6a, 0xc095f13a, 0x7bd57a3a, 0x1c7d7513));
    Next2(x, 19, Vectors(0xd6819c6a, 0xc095f13a, 0x7bd57a3a, 0x1c7d7513), 0, 0x80, 0xe9b6c7aa, 0xe9b6c7aa, 20, Vectors(0x1c7d7513, 0xbd782e17, 0xc095f13a, 0x7bd57a3a));
  }

  lemma Empty5(x: seq<Word>)
    requires IsEmpty(x) && After(x, 20, Vectors(0x1c7d7513, 0xbd782e17, 0xc095f13a, 0x7bd57a3a))
    ensures After(x, 24, Vectors(0x3d1e3e6c, 0xe422531a, 0xeb41643e, 0x68b7b3e3))
  {
    hide After, Row, Val, ValQuad;
    Rows3();
    Values3();
    EmptyValues();
    Next2(x, 20, Vectors(0x1c7d7513, 0xbd782e17, 0xc095f13a, 0x7bd57a3a), 5, 0x0, 0xd62f105d, 0xd62f105d, 5, Vectors(0x7bd57a3a, 0x3d1e3e6c, 0xbd782e17, 0xc095f13a));
    Next2(x, 21, Vectors(0x7bd57a3a, 0x3d1e3e6c, 0xbd782e17, 0xc095f13a), 10, 0x0, 0x2441453, 0x2441453, 9, Vectors(0xc095f13a, 0x68b7b3e3, 0x3d1e3e6c, 0xbd782e17));
    Next2(x, 22, Vectors(0xc095f13a, 0x68b7b3e3, 0x3d1e3e6c, 0xbd782e17), 15, 0x0, 0xd8a1e681, 0xd8a1e681, 14, Vectors(0xbd782e17, 0xeb41643e, 0x68b7b3e3, 0x3d1e3e6c));
    Next2(x, 23, Vectors(0xbd782e17, 0xeb41643e, 0x68b7b3e3, 0x3d1e3e6c), 4, 0x0, 0xe7d3fbc8, 0xe7d3fbc8, 20, Vectors(0x3d1e3e6c, 0xe422531a, 0xeb41643e, 0x68b7b3e3));
  }

  lemma Empty6(x: seq<Word>)
    requires IsEmpty(x) && After(x, 24, Vectors(0x3d1e3e6c, 0xe422531a, 0xeb41643e, 0x68b7b3e3))
    ensures After(x, 28, Vectors(0x306ec122, 0xa0572807, 0xa3c663da, 0xd28c77c2))
  {
    hide After, Row, Val, ValQuad;
    Rows4();
    Values4();
    EmptyValues();
    Next2(x, 24, Vectors(0x3d1e3e6c, 0xe422531a, 0xeb41643e, 0x68b7b3e3), 9, 0x0, 0x21e1cde6, 0x21e1cde6, 5, Vectors(0x68b7b3e3, 0x306ec122, 0xe422531a, 0xeb41643e));
    Next2(x, 25, Vectors(0x68b7b3e3, 0x306ec122, 0xe422531a, 0xeb41643e), 14, 0x0, 0xc33707d6, 0xc33707d6, 9, Vectors(0xeb41643e, 0xd28c77c2, 0x306ec122, 0xe422531a));
    Next2(x, 26, Vectors(0xeb41643e, 0xd28c77c2, 0x306ec122, 0xe422531a), 3, 0x0, 0xf4d50d87, 0xf4d50d87, 14, Vectors(0xe422531a, 0xa3c663da, 0xd28c77c2, 0x306ec122));
    Next2(x, 27, Vectors(0xe422531a, 0xa3c663da, 0xd28c77c2, 0x306ec122), 8, 0x0, 0x455a14ed, 0x455a14ed, 20, Vectors(0x306ec122, 0xa0572807, 0xa3c663da, 0xd28c77c2));
  }

  lemma Empty7(x: seq<Word>)
    requires IsEmpty(x) && After(x, 28, Vectors(0x306ec122, 0xa0572807, 0xa3c663da, 0xd28c77c2))
    ensures After(x, 32, Vectors(0x13707036, 0xa2205f1f, 0x1c31c384, 0xae7813db))
  {
    hide After, Row, Val, ValQuad;
    Rows4();
    Values4();
    EmptyValues();
    Next2(x, 28, Vectors(0x306ec122, 0xa0572807, 0xa3c663da, 0xd28c77c2), 13, 0x0, 0xa9e3e905, 0xa9e3e905, 5, Vectors(0xd28c77c2, 0x13707036, 0xa0572807, 0xa3c663da));
    Next2(x, 29, Vectors(0xd28c77c2, 0x13707036, 0xa0572807, 0xa3c663da), 2, 0x0, 0xfcefa3f8, 0xfcefa3f8, 9, Vectors(0xa3c663da, 0xae7813db, 0x13707036, 0xa0572807));
    Next2(x, 30, Vectors(0xa3c663da, 0xae7813db, 0x13707036, 0xa0572807), 7, 0x0, 0x676f02d9, 0x676f02d9, 14, Vectors(0xa0572807, 0x1c31c384, 0xae7813db, 0x13707036));
    Next2(x, 31, Vectors(0xa0572807, 0x1c31c384, 0xae7813db, 0x13707036), 12, 0x0, 0x8d2a4c8a, 0x8d2a4c8a, 20, Vectors(0x13707036, 0xa2205f1f, 0x1c31c384, 0xae7813db));
  }

  lemma Empty8(x: seq<Word>)
    requires IsEmpty(x) && After(x, 32, Vectors(0x13707036, 0xa2205f1f, 0x1c31c384, 0xae7813db))
    ensures After(x, 36, Vectors(0xdf63eaa1, 0x4b6669, 0x12f3e755, 0xc3689f5b))
  {
    hide After, Row, Val, ValQuad;
    Rows5();
    Values5();
    EmptyValues();
    Next3(x, 32, Vectors(0x13707036, 0xa2205f1f, 0x1c31c384, 0xae7813db), 5, 0x0, 0xfffa3942, 0xfffa3942, 4, Vectors(0xae7813db, 0xdf63eaa1, 0xa2205f1f, 0x1c31c384));
    Next3(x, 33, Vectors(0xae7813db, 0xdf63eaa1, 0xa2205f1f, 0x1c31c384), 8, 0x0, 0x8771f681, 0x8771f681, 11, Vectors(0x1c31c384, 0xc3689f5b, 0xdf63eaa1, 0xa2205f1f));
    Next3(x, 34, Vectors(0x1c31c384, 0xc3689f5b, 0xdf63eaa1, 0xa2205f1f), 11, 0x0, 0x6d9d6122, 0x6d9d6122, 16, Vectors(0xa2205f1f, 0x12f3e755, 0xc3689f5b, 0xdf63eaa1));
    Next3(x, 35, Vectors(0xa2205f1f, 0x12f3e755, 0xc3689f5b, 0xdf63eaa1), 14, 0x0, 0xfde5380c, 0xfde5380c, 23, Vectors(0xdf63eaa1, 0x4b6669, 0x12f3e755, 0xc3689f5b));
  }

  lemma Empty9(x: seq<Word>)
    requires IsEmpty(x) && After(x, 36, Vectors(0xdf63eaa1, 0x4b6669, 0x12f3e755, 0xc3689f5b))
    ensures After(x, 40, Vectors(0x5f7a9b2e, 0xc5dc8c15, 0x91ca4cb7, 0xabc34e16))
  {
    hide After, Row, Val, ValQuad;
    Rows5();
    Values5();
    EmptyValues();
    Next3(x, 36, Vectors(0xdf63eaa1, 0x4b6669, 0x12f3e755, 0xc3689f5b), 1, 0x0, 0xa4beea44, 0xa4beea44, 4, Vectors(0xc3689f5b, 0x5f7a9b2e, 0x4b6669, 0x12f3e755));
    Next3(x, 37, Vectors(0xc3689f5b, 0x5f7a9b2e, 0x4b6669, 0x12f3e755), 4, 0x0, 0x4bdecfa9, 0x4bdecfa9, 11, Vectors(0x12f3e755, 0xabc34e16, 0x5f7a9b2e, 0x4b6669));
    Next3(x, 38, Vectors(0x12f3e755, 0xabc34e16, 0x5f7a9b2e, 0x4b6669), 7, 0x0, 0xf6bb4b60, 0xf6bb4b60, 16, Vectors(0x4b6669, 0x91ca4cb7, 0xabc34e16, 0x5f7a9b2e));
    Next3(x, 39, Vectors(0x4b6669, 0x91ca4cb7, 0xabc34e16, 0x5f7a9b2e), 10, 0x0, 0xbebfbc70, 0xbebfbc70, 23, Vectors(0x5f7a9b2e, 0xc5dc8c15, 0x91ca4cb7, 0xabc34e16));
  }

  lemma Empty10(x: seq<Word>)
    requires IsEmpty(x) && After(x, 40, Vectors(0x5f7a9b2e, 0xc5dc8c15, 0x91ca4cb7, 0xabc34e16))
    ensures After(x, 44, Vectors(0x4497169d, 0xfe32453, 0xfd95f243, 0x76fd93d4))
  {
    hide After, Row, Val, ValQuad;
    Rows6();
    Values6();
    EmptyValues();
    Next3(x, 40, Vectors(0x5f7a9b2e, 0xc5dc8c15, 0x91ca4cb7, 0xabc34e16), 13, 0x0, 0x289b7ec6, 0x289b7ec6, 4, Vectors(0xabc34e16, 0x4497169d, 0xc5dc8c15, 0x91ca4cb7));
    Next3(x, 41, Vectors(0xabc34e16, 0x4497169d, 0xc5dc8c15, 0x91ca4cb7), 0, 0x80, 0xeaa127fa, 0xeaa127fa, 11, Vectors(0x91ca4cb7, 0x76fd93d4, 0x4497169d, 0xc5dc8c15));
    Next3(x, 42, Vectors(0x91ca4cb7, 0x76fd93d4, 0x4497169d, 0xc5dc8c15), 3, 0x0, 0xd4ef3085, 0xd4ef3085, 16, Vectors(0xc5dc8c15, 0xfd95f243, 0x76fd93d4, 0x4497169d));
    Next3(x, 43, Vectors(0xc5dc8c15, 0xfd95f243, 0x76fd93d4, 0x4497169d), 6, 0x0, 0x4881d05, 0x4881d05, 23, Vectors(0x4497169d, 0xfe32453, 0xfd95f243, 0x76fd93d4));
  }

  lemma Empty11(x: seq<Word>)
    requires IsEmpty(x) && After(x, 44, Vectors(0x4497169d, 0xfe32453, 0xfd95f243, 0x76fd93d4))
    ensures After(x, 48, Vectors(0x3f55edfd, 0xca7d2dbd, 0x68d84ea2, 0x22a31f54))
  {
    hide After, Row, Val, ValQuad;
    Rows6();
    Values6();
    EmptyValues();
    Next3(x, 44, Vectors(0x4497169d, 0xfe32453, 0xfd95f243, 0x76fd93d4), 9, 0x0, 0xd9d4d039, 0xd9d4d039, 4, Vectors(0x76fd93d4, 0x3f55edfd, 0xfe32453, 0xfd95f243));
    Next3(x, 45, Vectors(0x76fd93d4, 0x3f55edfd, 0xfe32453, 0xfd95f243), 12, 0x0, 0xe6db99e5, 0xe6db99e5, 11, Vectors(0xfd95f243, 0x22a31f54, 0x3f55edfd, 0xfe32453));
    Next3(x, 46, Vectors(0xfd95f243, 0x22a31f54, 0x3f55edfd, 0xfe32453), 15, 0x0, 0x1fa27cf8, 0x1fa27cf8, 16, Vectors(0xfe32453, 0x68d84ea2, 0x22a31f54, 0x3f55edfd));
    Next3(x, 47, Vectors(0xfe32453, 0x68d84ea2, 0x22a31f54, 0x3f55edfd), 2, 0x0, 0xc4ac5665, 0xc4ac5665, 23, Vectors(0x3f55edfd, 0xca7d2dbd, 0x68d84ea2, 0x22a31f54));
  }

  lemma Empty12(x: seq<Word>)
    requires IsEmpty(x) && After(x, 48, Vectors(0x3f55edfd, 0xca7d2dbd, 0x68d84ea2, 0x22a31f54))
    ensures After(x, 52, Vectors(0x93aa2577, 0x561e0689, 0xcd85b8cb, 0x1688dc85))
  {
    hide After, Row, Val, ValQuad;
    Rows7();
    Values7();
    EmptyValues();
    Next4(x, 48, Vectors(0x3f55edfd, 0xca7d2dbd, 0x68d84ea2, 0x22a31f54), 0, 0x80, 0xf4292244, 0xf4292244, 6, Vectors(0x22a31f54, 0x93aa2577, 0xca7d2dbd, 0x68d84ea2));
    Next4(x, 49, Vectors(0x22a31f54, 0x93aa2577, 0xca7d2dbd, 0x68d84ea2), 7, 0x0, 0x432aff97, 0x432aff97, 10, Vectors(0x68d84ea2, 0x1688dc85, 0x93aa2577, 0xca7d2dbd));
    Next4(x, 50, Vectors(0x68d84ea2, 0x1688dc85, 0x93aa2577, 0xca7d2dbd), 14, 0x0, 0xab9423a7, 0xab9423a7, 15, Vectors(0xca7d2dbd, 0xcd85b8cb, 0x1688dc85, 0x93aa2577));
    Next4(x, 51, Vectors(0xca7d2dbd, 0xcd85b8cb, 0x1688dc85, 0x93aa2577), 5, 0x0, 0xfc93a039, 0xfc93a039, 21, Vectors(0x93aa2577, 0x561e0689, 0xcd85b8cb, 0x1688dc85));
  }

  lemma Empty13(x: seq<Word>)
    requires IsEmpty(x) && After(x, 52, Vectors(0x93aa2577, 0x561e0689, 0xcd85b8cb, 0x1688dc85))
    ensures After(x, 56, Vectors(0x5625a114, 0x1e77fa61, 0x392ad0d0, 0x3450f42b))
  {
    hide After, Row, Val, ValQuad;
    Rows7();
    Values7();
    EmptyValues();
    Next4(x, 52, Vectors(0x93aa2577, 0x561e0689, 0xcd85b8cb, 0x1688dc85), 12, 0x0, 0x655b59c3, 0x655b59c3, 6, Vectors(0x1688dc85, 0x5625a114, 0x561e0689, 0xcd85b8cb));
    Next4(x, 53, Vectors(0x1688dc85, 0x5625a114, 0x561e0689, 0xcd85b8cb), 3, 0x0, 0x8f0ccc92, 0x8f0ccc92, 10, Vectors(0xcd85b8cb, 0x3450f42b, 0x5625a114, 0x561e0689));
    Next4(x, 54, Vectors(0xcd85b8cb, 0x3450f42b, 0x5625a114, 0x561e0689), 10, 0x0, 0xffeff47d, 0xffeff47d, 15, Vectors(0x561e0689, 0x392ad0d0, 0x3450f42b, 0x5625a114));
    Next4(x, 55, Vectors(0x561e0689, 0x392ad0d0, 0x3450f42b, 0x5625a114), 1, 0x0, 0x85845dd1, 0x85845dd1, 21, Vectors(0x5625a114, 0x1e77fa61, 0x392ad0d0, 0x3450f42b));
  }

  lemma Empty14(x: seq<Word>)
    requires IsEmpty(x) && After(x, 56, Vectors(0x5625a114, 0x1e77fa61, 0x392ad0d0, 0x3450f42b))
    ensures After(x, 60, Vectors(0x474a9c8c, 0x30130182, 0x36594b14, 0xdfce00bc))
  {
    hide After, Row, Val, ValQuad;
    Rows8();
    Values8();
    EmptyValues();
    Next4(x, 56, Vectors(0x5625a114, 0x1e77fa61, 0x392ad0d0, 0x3450f42b), 8, 0x0, 0x6fa87e4f, 0x6fa87e4f, 6, Vectors(0x3450f42b, 0x474a9c8c, 0x1e77fa61, 0x392ad0d0));
    Next4(x, 57, Vectors(0x3450f42b, 0x474a9c8c, 0x1e77fa61, 0x392ad0d0), 15, 0x0, 0xfe2ce6e0, 0xfe2ce6e0, 10, Vectors(0x392ad0d0, 0xdfce00bc, 0x474a9c8c, 0x1e77fa61));
    Next4(x, 58, Vectors(0x392ad0d0, 0xdfce00bc, 0x474a9c8c, 0x1e77fa61), 6, 0x0, 0xa3014314, 0xa3014314, 15, Vectors(0x1e77fa61, 0x36594b14, 0xdfce00bc, 0x474a9c8c));
    Next4(x, 59, Vectors(0x1e77fa61, 0x36594b14, 0xdfce00bc, 0x474a9c8c), 13, 0x0, 0x4e0811a1, 0x4e0811a1, 21, Vectors(0x474a9c8c, 0x30130182, 0x36594b14, 0xdfce00bc));
  }

  lemma Empty15(x: seq<Word>)
    requires IsEmpty(x) && After(x, 60, Vectors(0x474a9c8c, 0x30130182, 0x36594b14, 0xdfce00bc))
    ensures After(x, 64, Vectors(0x7246fad3, 0x14e45506, 0xff4ea3eb, 0x6e10a476))
  {
    hide After, Row, Val, ValQuad;
    Rows8();
    Values8();
    EmptyValues();
    Next4(x, 60, Vectors(0x474a9c8c, 0x30130182, 0x36594b14, 0xdfce00bc), 4, 0x0, 0xf7537e82, 0xf7537e82, 6, Vectors(0xdfce00bc, 0x7246fad3, 0x30130182, 0x36594b14));
    Next4(x, 61, Vectors(0xdfce00bc, 0x7246fad3, 0x30130182, 0x36594b14), 11, 0x0, 0xbd3af235, 0xbd3af235, 10, Vectors(0x36594b14, 0x6e10a476, 0x7246fad3, 0x30130182));
    Next4(x, 62, Vectors(0x36594b14, 0x6e10a476, 0x7246fad3, 0x30130182), 2, 0x0, 0x2ad7d2bb, 0x2ad7d2bb, 15, Vectors(0x30130182, 0xff4ea3eb, 0x6e10a476, 0x7246fad3));
    Next4(x, 63, Vectors(0x30130182, 0xff4ea3eb, 0x6e10a476, 0x7246fad3), 9, 0x0, 0xeb86d391, 0xeb86d391, 21, Vectors(0x7246fad3, 0x14e45506, 0xff4ea3eb, 0x6e10a476));
  }

  lemma EmptyBlock(x: seq<Word>)
    requires IsEmpty(x)
    ensures AddQuad(INIT, Steps(INIT, x, 64)) == Quad(0xd98c1dd4, 0x4b2008f, 0x980980e9, 0x7e42f8ec)
  {
    hide After, Row, Val, ValQuad, Steps;
    Starts(x);
    Empty0(x);
    Empty1(x);
    Empty2(x);
    Empty3(x);
    Empty4(x);
    Empty5(x);
    Empty6(x);
    Empty7(x);
    Empty8(x);
    Empty9(x);
    Empty10(x);
    Empty11(x);
    Empty12(x);
    Empty13(x);
    Empty14(x);
    Empty15(x);
    EmptyEnd(x);
  }

  lemma EmptyEnd(x: seq<Word>)
    requires |x| == 16 && After(x, 64, Vectors(0x7246fad3, 0x14e45506, 0xff4ea3eb, 0x6e10a476))
    ensures AddQuad(INIT, Steps(INIT, x, 64)) == Quad(0xd98c1dd4, 0x4b2008f, 0x980980e9, 0x7e42f8ec)
  {
    hide Steps;
  }

  // ----- the message "abc" ---------------------------------------------------------------------------

  predicate IsAbc(x: seq<Word>) {
    |x| == 16 && x[0] == 0x80636261 && x[1] == 0x0 && x[2] == 0x0 && x[3] == 0x0 && x[4] == 0x0 && x[5] == 0x0 && x[6] == 0x0 && x[7] == 0x0 && x[8] == 0x0 && x[9] == 0x0 && x[10] == 0x0 && x[11] == 0x0 && x[12] == 0x0 && x[13] == 0x0 && x[14] == 0x18 && x[15] == 0x0
  }

  lemma AbcValues()
    ensures Val(0x0) == 0x0 && Val(0x18) == 0x18 && Val(0x80636261) == 0x80636261
  {
  }

  lemma Abc0(x: seq<Word>)
    requires IsAbc(x) && After(x, 0, Vectors(0x67452301, 0xefcdab89, 0x98badcfe, 0x10325476))
    ensures After(x, 4, Vectors(0xd6d117b4, 0x7ad956f2, 0x2f6fbd72, 0x344a8432))
  {
    hide After, Row, Val, ValQuad;
    Rows1();
    Values1();
    AbcValues();
    Next1(x, 0, Vectors(0x67452301, 0xefcdab89, 0x98badcfe, 0x10325476), 0, 0x80636261, 0xd76aa478, 0xd76aa478, 7, Vectors(0x10325476, 0xd6d117b4, 0xefcdab89, 0x98badcfe));
    Next1(x, 1, Vectors(0x10325476, 0xd6d117b4, 0xefcdab89, 0x98badcfe), 1, 0x0, 0xe8c7b756, 0xe8c7b756, 12, Vectors(0x98badcfe, 0x344a8432, 0xd6d117b4, 0xefcdab89));
    Next1(x, 2, Vectors(0x98badcfe, 0x344a8432, 0xd6d117b4, 0xefcdab89), 2, 0x0, 0x242070db, 0x242070db, 17, Vectors(0xefcdab89, 0x2f6fbd72, 0x344a8432, 0xd6d117b4));
    Next1(x, 3, Vectors(0xefcdab89, 0x2f6fbd72, 0x344a8432, 0xd6d117b4), 3, 0x0, 0xc1bdceee, 0xc1bdceee, 22, Vectors(0xd6d117b4, 0x7ad956f2, 0x2f6fbd72, 0x344a8432));
  }

  lemma Abc1(x: seq<Word>)
    requires IsAbc(x) && After(x, 4, Vectors(0xd6d117b4, 0x7ad956f2, 0x2f6fbd72, 0x344a8432))
    ensures After(x, 8, Vectors(0xc73741ef, 0x928d99f6, 0x207dc67b, 0x8bac3051))
  {
    hide After, Row, Val, ValQuad;
    Rows1();
    Values1();
    AbcValues();
    Next1(x, 4, Vectors(0xd6d117b4, 0x7ad956f2, 0x2f6fbd72, 0x344a8432), 4, 0x0, 0xf57c0faf, 0xf57c0faf, 7, Vectors(0x344a8432, 0xc73741ef, 0x7ad956f2, 0x2f6fbd72));
    Next1(x, 5, Vectors(0x344a8432, 0xc73741ef, 0x7ad956f2, 0x2f6fbd72), 5, 0x0, 0x4787c62a, 0x4787c62a, 12, Vectors(0x2f6fbd72, 0x8bac3051, 0xc73741ef, 0x7ad956f2));
    Next1(x, 6, Vectors(0x2f6fbd72, 0x8bac3051, 0xc73741ef, 0x7ad956f2), 6, 0x0, 0xa8304613, 0xa8304613, 17, Vectors(0x7ad956f2, 0x207dc67b, 0x8bac3051, 0xc73741ef));
    Next1(x, 7, Vectors(0x7ad956f2, 0x207dc67b, 0x8bac3051, 0xc73741ef), 7, 0x0, 0xfd469501, 0xfd469501, 22, Vectors(0xc73741ef, 0x928d99f6, 0x207dc67b, 0x8bac3051));
  }

  lemma Abc2(x: seq<Word>)
    requires IsAbc(x) && After(x, 8, Vectors(0xc73741ef, 0x928d99f6, 0x207dc67b, 0x8bac3051))
    ensures After(x, 12, Vectors(0x854b3712, 0x5ed49596, 0x3020401c, 0x74e2f284))
  {
    hide After, Row, Val, ValQuad;
    Rows2();
    Values2();
    AbcValues();
    Next1(x, 8, Vectors(0xc73741ef, 0x928d99f6, 0x207dc67b, 0x8bac3051), 8, 0x0, 0x698098d8, 0x698098d8, 7, Vectors(0x8bac3051, 0x854b3712, 0x928d99f6, 0x207dc67b));
    Next1(x, 9, Vectors(0x8bac3051, 0x854b3712, 0x928d99f6, 0x207dc67b), 9, 0x0, 0x8b44f7af, 0x8b44f7af, 12, Vectors(0x207dc67b, 0x74e2f284, 0x854b3712, 0x928d99f6));
    Next1(x, 10, Vectors(0x207dc67b, 0x74e2f284, 0x854b3712, 0x928d99f6), 10, 0x0, 0xffff5bb1, 0xffff5bb1, 17, Vectors(0x928d99f6, 0x3020401c, 0x74e2f284, 0x854b3712));
    Next1(x, 11, Vectors(0x928d99f6, 0x3020401c, 0x74e2f284, 0x854b3712), 11, 0x0, 0x895cd7be, 0x895cd7be, 22, Vectors(0x854b3712, 0x5ed49596, 0x3020401c, 0x74e2f284));
  }

  lemma Abc3(x: seq<Word>)
    requires IsAbc(x) && After(x, 12, Vectors(0x854b3712, 0x5ed49596, 0x3020401c, 0x74e2f284))
    ensures After(x, 16, Vectors(0xdda9b9a6, 0x72aff2e0, 0xe396856b, 0xa1051895))
  {
    hide After, Row, Val, ValQuad;
    Rows2();
    Values2();
    AbcValues();
    Next1(x, 12, Vectors(0x854b3712, 0x5ed49596, 0x3020401c, 0x74e2f284), 12, 0x0, 0x6b901122, 0x6b901122, 7, Vectors(0x74e2f284, 0xdda9b9a6, 0x5ed49596, 0x3020401c));
    Next1(x, 13, Vectors(0x74e2f284, 0xdda9b9a6, 0x5ed49596, 0x3020401c), 13, 0x0, 0xfd987193, 0xfd987193, 12, Vectors(0x3020401c, 0xa1051895, 0xdda9b9a6, 0x5ed49596));
    Next1(x, 14, Vectors(0x3020401c, 0xa1051895, 0xdda9b9a6, 0x5ed49596), 14, 0x18, 0xa679438e, 0xa679438e, 17, Vectors(0x5ed49596, 0xe396856b, 0xa1051895, 0xdda9b9a6));
    Next1(x, 15, Vectors(0x5ed49596, 0xe396856b, 0xa1051895, 0xdda9b9a6), 15, 0x0, 0x49b40821, 0x49b40821, 22, Vectors(0xdda9b9a6, 0x72aff2e0, 0xe396856b, 0xa1051895));
  }

  lemma Abc4(x: seq<Word>)
    requires IsAbc(x) && After(x, 16, Vectors(0xdda9b9a6, 0x72aff2e0, 0xe396856b, 0xa1051895))
    ensures After(x, 20, Vectors(0x3e9e9126, 0xb5b204e4, 0xe25e1652, 0x4a1d804e))
  {
    hide After, Row, Val, ValQuad;
    Rows3();
    Values3();
    AbcValues();
    Next2(x, 16, Vectors(0xdda9b9a6, 0x72aff2e0, 0xe396856b, 0xa1051895), 1, 0x0, 0xf61e2562, 0xf61e2562, 5, Vectors(0xa1051895, 0x3e9e9126, 0x72aff2e0, 0xe396856b));
    Next2(x, 17, Vectors(0xa1051895, 0x3e9e9126, 0x72aff2e0, 0xe396856b), 6, 0x0, 0xc040b340, 0xc040b340, 9, Vectors(0xe396856b, 0x4a1d804e, 0x3e9e9126, 0x72aff2e0));
    Next2(x, 18, Vectors(0xe396856b, 0x4a1d804e, 0x3e9e9126, 0x72aff2e0), 11, 0x0, 0x265e5a51, 0x265e5a51, 14, Vectors(0x72aff2e0, 0xe25e1652, 0x4a1d804e, 0x3e9e9126));
    Next2(x, 19, Vectors(0x72aff2e0, 0xe25e1652, 0x4a1d804e, 0x3e9e9126), 0, 0x80636261, 0xe9b6c7aa, 0xe9b6c7aa, 20, Vectors(0x3e9e9126, 0xb5b204e4, 0xe25e1652, 0x4a1d804e));
  }

  lemma Abc5(x: seq<Word>)
    requires IsAbc(x) && After(x, 20, Vectors(0x3e9e9126, 0xb5b204e4, 0xe25e1652, 0x4a1d804e))
    ensures After(x, 24, Vectors(0x59a8ffda, 0x47092c07, 0xabfc7920, 0x6d002f1e))
  {
    hide After, Row, Val, ValQuad;
    Rows3();
    Values3();
    AbcValues();
    Next2(x, 20, Vectors(0x3e9e9126, 0xb5b204e4, 0xe25e1652, 0x4a1d804e), 5, 0x0, 0xd62f105d, 0xd62f105d, 5, Vectors(0x4a1d804e, 0x59a8ffda, 0xb5b204e4, 0xe25e1652));
    Next2(x, 21, Vectors(0x4a1d804e, 0x59a8ffda, 0xb5b204e4, 0xe25e1652), 10, 0x0, 0x2441453, 0x2441453, 9, Vectors(0xe25e1652, 0x6d002f1e, 0x59a8ffda, 0xb5b204e4));
    Next2(x, 22, Vectors(0xe25e1652, 0x6d002f1e, 0x59a8ffda, 0xb5b204e4), 15, 0x0, 0xd8a1e681, 0xd8a1e681, 14, Vectors(0xb5b204e4, 0xabfc7920, 0x6d002f1e, 0x59a8ffda));
    Next2(x, 23, Vectors(0xb5b204e4, 0xabfc7920, 0x6d002f1e, 0x59a8ffda), 4, 0x0, 0xe7d3fbc8, 0xe7d3fbc8, 20, Vectors(0x59a8ffda, 0x47092c07, 0xabfc7920, 0x6d002f1e));
  }

  lemma Abc6(x: seq<Word>)
    requires IsAbc(x) && After(x, 24, Vectors(0x59a8ffda, 0x47092c07, 0xabfc7920, 0x6d002f1e))
    ensures After(x, 28, Vectors(0xb7f268cf, 0x786acb8f, 0xfe1623b1, 0x9388eff))
  {
    hide After, Row, Val, ValQuad;
    Rows4();
    Values4();
    AbcValues();
    Next2(x, 24, Vectors(0x59a8ffda, 0x47092c07, 0xabfc7920, 0x6d002f1e), 9, 0x0, 0x21e1cde6, 0x21e1cde6, 5, Vectors(0x6d002f1e, 0xb7f268cf, 0x47092c07, 0xabfc7920));
    Next2(x, 25, Vectors(0x6d002f1e, 0xb7f268cf, 0x47092c07, 0xabfc7920), 14, 0x18, 0xc33707d6, 0xc33707d6, 9, Vectors(0xabfc7920, 0x9388eff, 0xb7f268cf, 0x47092c07));
    Next2(x, 26, Vectors(0xabfc7920, 0x9388eff, 0xb7f268cf, 0x47092c07), 3, 0x0, 0xf4d50d87, 0xf4d50d87, 14, Vectors(0x47092c07, 0xfe1623b1, 0x9388eff, 0xb7f268cf));
    Next2(x, 27, Vectors(0x47092c07, 0xfe1623b1, 0x9388eff, 0xb7f268cf), 8, 0x0, 0x455a14ed, 0x455a14ed, 20, Vectors(0xb7f268cf, 0x786acb8f, 0xfe1623b1, 0x9388eff));
  }

  lemma Abc7(x: seq<Word>)
    requires IsAbc(x) && After(x, 28, Vectors(0xb7f268cf, 0x786acb8f, 0xfe1623b1, 0x9388eff))
    ensures After(x, 32, Vectors(0x790a77fb, 0x726342d3, 0xa62884aa, 0x9f47e4f8))
  {
    hide After, Row, Val, ValQuad;
    Rows4();
    Values4();
    AbcValues();
    Next2(x, 28, Vectors(0xb7f268cf, 0x786acb8f, 0xfe1623b1, 0x9388eff), 13, 0x0, 0xa9e3e905, 0xa9e3e905, 5, Vectors(0x9388eff, 0x790a77fb, 0x786acb8f, 0xfe1623b1));
    Next2(x, 29, Vectors(0x9388eff, 0x790a77fb, 0x786acb8f, 0xfe1623b1), 2, 0x0, 0xfcefa3f8, 0xfcefa3f8, 9, Vectors(0xfe1623b1, 0x9f47e4f8, 0x790a77fb, 0x786acb8f));
    Next2(x, 30, Vectors(0xfe1623b1, 0x9f47e4f8, 0x790a77fb, 0x786acb8f), 7, 0x0, 0x676f02d9, 0x676f02d9, 14, Vectors(0x786acb8f, 0xa62884aa, 0x9f47e4f8, 0x790a77fb));
    Next2(x, 31, Vectors(0x786acb8f, 0xa62884aa, 0x9f47e4f8, 0x790a77fb), 12, 0x0, 0x8d2a4c8a, 0x8d2a4c8a, 20, Vectors(0x790a77fb, 0x726342d3, 0xa62884aa, 0x9f47e4f8));
  }

  lemma Abc8(x: seq<Word>)
    requires IsAbc(x) && After(x, 32, Vectors(0x790a77fb, 0x726342d3, 0xa62884aa, 0x9f47e4f8))
    ensures After(x, 36, Vectors(0xb3707ebf, 0x3b0875c7, 0x8d212ff5, 0x60127b2e))
  {
    hide After, Row, Val, ValQuad;
    Rows5();
    Values5();
    AbcValues();
    Next3(x, 32, Vectors(0x790a77fb, 0x726342d3, 0xa62884aa, 0x9f47e4f8), 5, 0x0, 0xfffa3942, 0xfffa3942, 4, Vectors(0x9f47e4f8, 0xb3707ebf, 0x726342d3, 0xa62884aa));
    Next3(x, 33, Vectors(0x9f47e4f8, 0xb3707ebf, 0x726342d3, 0xa62884aa), 8, 0x0, 0x8771f681, 0x8771f681, 11, Vectors(0xa62884aa, 0x60127b2e, 0xb3707ebf, 0x726342d3));
    Next3(x, 34, Vectors(0xa62884aa, 0x60127b2e, 0xb3707ebf, 0x726342d3), 11, 0x0, 0x6d9d6122, 0x6d9d6122, 16, Vectors(0x726342d3, 0x8d212ff5, 0x60127b2e, 0xb3707ebf));
    Next3(x, 35, Vectors(0x726342d3, 0x8d212ff5, 0x60127b2e, 0xb3707ebf), 14, 0x18, 0xfde5380c, 0xfde5380c, 23, Vectors(0xb3707ebf, 0x3b0875c7, 0x8d212ff5, 0x60127b2e));
  }

  lemma Abc9(x: seq<Word>)
    requires IsAbc(x) && After(x, 36, Vectors(0xb3707ebf, 0x3b0875c7, 0x8d212ff5, 0x60127b2e))
    ensures After(x, 40, Vectors(0x21b117b9, 0x5a2f5ea5, 0x3575227e, 0x6e7429d5))
  {
    hide After, Row, Val, ValQuad;
    Rows5();
    Values5();
    AbcValues();
    Next3(x, 36, Vectors(0xb3707ebf, 0x3b0875c7, 0x8d212ff5, 0x60127b2e), 1, 0x0, 0xa4beea44, 0xa4beea44, 4, Vectors(0x60127b2e, 0x21b117b9, 0x3b0875c7, 0x8d212ff5));
    Next3(x, 37, Vectors(0x60127b2e, 0x21b117b9, 0x3b0875c7, 0x8d212ff5), 4, 0x0, 0x4bdecfa9, 0x4bdecfa9, 11, Vectors(0x8d212ff5, 0x6e7429d5, 0x21b117b9, 0x3b0875c7));
    Next3(x, 38, Vectors(0x8d212ff5, 0x6e7429d5, 0x21b117b9, 0x3b0875c7), 7, 0x0, 0xf6bb4b60, 0xf6bb4b60, 16, Vectors(0x3b0875c7, 0x3575227e, 0x6e7429d5, 0x21b117b9));
    Next3(x, 39, Vectors(0x3b0875c7, 0x3575227e, 0x6e7429d5, 0x21b117b9), 10, 0x0, 0xbebfbc70, 0xbebfbc70, 23, Vectors(0x21b117b9, 0x5a2f5ea5, 0x3575227e, 0x6e7429d5));
  }

  lemma Abc10(x: seq<Word>)
    requires IsAbc(x) && After(x, 40, Vectors(0x21b117b9, 0x5a2f5ea5, 0x3575227e, 0x6e7429d5))
    ensures After(x, 44, Vectors(0x11de1779, 0x4c6124f4, 0x31c465ca, 0xfadcaa38))
  {
    hide After, Row, Val, ValQuad;
    Rows6();
    Values6();
    AbcValues();
    Next3(x, 40, Vectors(0x21b117b9, 0x5a2f5ea5, 0x3575227e, 0x6e7429d5), 13, 0x0, 0x289b7ec6, 0x289b7ec6, 4, Vectors(0x6e7429d5, 0x11de1779, 0x5a2f5ea5, 0x3575227e));
    Next3(x, 41, Vectors(0x6e7429d5, 0x11de1779, 0x5a2f5ea5, 0x3575227e), 0, 0x80636261, 0xeaa127fa, 0xeaa127fa, 11, Vectors(0x3575227e, 0xfadcaa38, 0x11de1779, 0x5a2f5ea5));
    Next3(x, 42, Vectors(0x3575227e, 0xfadcaa38, 0x11de1779, 0x5a2f5ea5), 3, 0x0, 0xd4ef3085, 0xd4ef3085, 16, Vectors(0x5a2f5ea5, 0x31c465ca, 0xfadcaa38, 0x11de1779));
    Next3(x, 43, Vectors(0x5a2f5ea5, 0x31c465ca, 0xfadcaa38, 0x11de1779), 6, 0x0, 0x4881d05, 0x4881d05, 23, Vectors(0x11de1779, 0x4c6124f4, 0x31c465ca, 0xfadcaa38));
  }

  lemma Abc11(x: seq<Word>)
    requires IsAbc(x) && After(x, 44, Vectors(0x11de1779, 0x4c6124f4, 0x31c465ca, 0xfadcaa38))
    ensures After(x, 48, Vectors(0x7f2e507b, 0x7beb9700, 0x8fae6399, 0x99d9679d))
  {
    hide After, Row, Val, ValQuad;
    Rows6();
    Values6();
    AbcValues();
    Next3(x, 44, Vectors(0x11de1779, 0x4c6124f4, 0x31c465ca, 0xfadcaa38), 9, 0x0, 0xd9d4d039, 0xd9d4d039, 4, Vectors(0xfadcaa38, 0x7f2e507b, 0x4c6124f4, 0x31c465ca));
    Next3(x, 45, Vectors(0xfadcaa38, 0x7f2e507b, 0x4c6124f4, 0x31c465ca), 12, 0x0, 0xe6db99e5, 0xe6db99e5, 11, Vectors(0x31c465ca, 0x99d9679d, 0x7f2e507b, 0x4c6124f4));
    Next3(x, 46, Vectors(0x31c465ca, 0x99d9679d, 0x7f2e507b, 0x4c6124f4), 15, 0x0, 0x1fa27cf8, 0x1fa27cf8, 16, Vectors(0x4c6124f4, 0x8fae6399, 0x99d9679d, 0x7f2e507b));
    Next3(x, 47, Vectors(0x4c6124f4, 0x8fae6399, 0x99d9679d, 0x7f2e507b), 2, 0x0, 0xc4ac5665, 0xc4ac5665, 23, Vectors(0x7f2e507b, 0x7beb9700, 0x8fae6399, 0x99d9679d));
  }

  lemma Abc12(x: seq<Word>)
    requires IsAbc(x) && After(x, 48, Vectors(0x7f2e507b, 0x7beb9700, 0x8fae6399, 0x99d9679d))
    ensures After(x, 52, Vectors(0x7b201df8, 0x8bf025c4, 0xb298cefd, 0xf4e8e96e))
  {
    hide After, Row, Val, ValQuad;
    Rows7();
    Values7();
    AbcValues();
    Next4(x, 48, Vectors(0x7f2e507b, 0x7beb9700, 0x8fae6399, 0x99d9679d), 0, 0x80636261, 0xf4292244, 0xf4292244, 6, Vectors(0x99d9679d, 0x7b201df8, 0x7beb9700, 0x8fae6399));
    Next4(x, 49, Vectors(0x99d9679d, 0x7b201df8, 0x7beb9700, 0x8fae6399), 7, 0x0, 0x432aff97, 0x432aff97, 10, Vectors(0x8fae6399, 0xf4e8e96e, 0x7b201df8, 0x7beb9700));
    Next4(x, 50, Vectors(0x8fae6399, 0xf4e8e96e, 0x7b201df8, 0x7beb9700), 14, 0x18, 0xab9423a7, 0xab9423a7, 15, Vectors(0x7beb9700, 0xb298cefd, 0xf4e8e96e, 0x7b201df8));
    Next4(x, 51, Vectors(0x7beb9700, 0xb298cefd, 0xf4e8e96e, 0x7b201df8), 5, 0x0, 0xfc93a039, 0xfc93a039, 21, Vectors(0x7b201df8, 0x8bf025c4, 0xb298cefd, 0xf4e8e96e));
  }

  lemma Abc13(x: seq<Word>)
    requires IsAbc(x) && After(x, 52, Vectors(0x7b201df8, 0x8bf025c4, 0xb298cefd, 0xf4e8e96e))
    ensures After(x, 56, Vectors(0x6cc5e8a, 0x3bfa2c27, 0x7d632dd0, 0x5b0d97aa))
  {
    hide After, Row, Val, ValQuad;
    Rows7();
    Values7();
    AbcValues();
    Next4(x, 52, Vectors(0x7b201df8, 0x8bf025c4, 0xb298cefd, 0xf4e8e96e), 12, 0x0, 0x655b59c3, 0x655b59c3, 6, Vectors(0xf4e8e96e, 0x6cc5e8a, 0x8bf025c4, 0xb298cefd));
    Next4(x, 53, Vectors(0xf4e8e96e, 0x6cc5e8a, 0x8bf025c4, 0xb298cefd), 3, 0x0, 0x8f0ccc92, 0x8f0ccc92, 10, Vectors(0xb298cefd, 0x5b0d97aa, 0x6cc5e8a, 0x8bf025c4));
    Next4(x, 54, Vectors(0xb298cefd, 0x5b0d97aa, 0x6cc5e8a, 0x8bf025c4), 10, 0x0, 0xffeff47d, 0xffeff47d, 15, Vectors(0x8bf025c4, 0x7d632dd0, 0x5b0d97aa, 0x6cc5e8a));
    Next4(x, 55, Vectors(0x8bf025c4, 0x7d632dd0, 0x5b0d97aa, 0x6cc5e8a), 1, 0x0, 0x85845dd1, 0x85845dd1, 21, Vectors(0x6cc5e8a, 0x3bfa2c27, 0x7d632dd0, 0x5b0d97aa));
  }

  lemma Abc14(x: seq<Word>)
    requires IsAbc(x) && After(x, 56, Vectors(0x6cc5e8a, 0x3bfa2c27, 0x7d632dd0, 0x5b0d97aa))
    ensures After(x, 60, Vectors(0x7f81cc35, 0x7327d604, 0x4f9dbe3f, 0x94454ab))
  {
    hide After, Row, Val, ValQuad;
    Rows8();
    Values8();
    AbcValues();
    Next4(x, 56, Vectors(0x6cc5e8a, 0x3bfa2c27, 0x7d632dd0, 0x5b0d97aa), 8, 0x0, 0x6fa87e4f, 0x6fa87e4f, 6, Vectors(0x5b0d97aa, 0x7f81cc35, 0x3bfa2c27, 0x7d632dd0));
    Next4(x, 57, Vectors(0x5b0d97aa, 0x7f81cc35, 0x3bfa2c27, 0x7d632dd0), 15, 0x0, 0xfe2ce6e0, 0xfe2ce6e0, 10, Vectors(0x7d632dd0, 0x94454ab, 0x7f81cc35, 0x3bfa2c27));
    Next4(x, 58, Vectors(0x7d632dd0, 0x94454ab, 0x7f81cc35, 0x3bfa2c27), 6, 0x0, 0xa3014314, 0xa3014314, 15, Vectors(0x3bfa2c27, 0x4f9dbe3f, 0x94454ab, 0x7f81cc35));
    Next4(x, 59, Vectors(0x3bfa2c27, 0x4f9dbe3f, 0x94454ab, 0x7f81cc35), 13, 0x0, 0x4e0811a1, 0x4e0811a1, 21, Vectors(0x7f81cc35, 0x7327d604, 0x4f9dbe3f, 0x94454ab));
  }

  lemma Abc15(x: seq<Word>)
    requires IsAbc(x) && After(x, 60, Vectors(0x7f81cc35, 0x7327d604, 0x4f9dbe3f, 0x94454ab))
    ensures After(x, 64, Vectors(0x310ade8f, 0xc08226b3, 0xe484b9d8, 0x624d8cb2))
  {
    hide After, Row, Val, ValQuad;
    Rows8();
    Values8();
    AbcValues();
    Next4(x, 60, Vectors(0x7f81cc35, 0x7327d604, 0x4f9dbe3f, 0x94454ab), 4, 0x0, 0xf7537e82, 0xf7537e82, 6, Vectors(0x94454ab, 0x310ade8f, 0x7327d604, 0x4f9dbe3f));
    Next4(x, 61, Vectors(0x94454ab, 0x310ade8f, 0x7327d604, 0x4f9dbe3f), 11, 0x0, 0xbd3af235, 0xbd3af235, 10, Vectors(0x4f9dbe3f, 0x624d8cb2, 0x310ade8f, 0x7327d604));
    Next4(x, 62, Vectors(0x4f9dbe3f, 0x624d8cb2, 0x310ade8f, 0x7327d604), 2, 0x0, 0x2ad7d2bb, 0x2ad7d2bb, 15, Vectors(0x7327d604, 0xe484b9d8, 0x624d8cb2, 0x310ade8f));
    Next4(x, 63, Vectors(0x7327d604, 0xe484b9d8, 0x624d8cb2, 0x310ade8f), 9, 0x0, 0xeb86d391, 0xeb86d391, 21, Vectors(0x310ade8f, 0xc08226b3, 0xe484b9d8, 0x624d8cb2));
  }

  lemma AbcBlock(x: seq<Word>)
    requires IsAbc(x)
    ensures AddQuad(INIT, Steps(INIT, x, 64)) == Quad(0x98500190, 0xb04fd23c, 0x7d3f96d6, 0x727fe128)
  {
    hide After, Row, Val, ValQuad, Steps;
    Starts(x);
    Abc0(x);
    Abc1(x);
    Abc2(x);
    Abc3(x);
    Abc4(x);
    Abc5(x);
    Abc6(x);
    Abc7(x);
    Abc8(x);
    Abc9(x);
    Abc10(x);
    Abc11(x);
    Abc12(x);
    Abc13(x);
    Abc14(x);
    Abc15(x);
    AbcEnd(x);
  }

  lemma AbcEnd(x: seq<Word>)
    requires |x| == 16 && After(x, 64, Vectors(0x310ade8f, 0xc08226b3, 0xe484b9d8, 0x624d8cb2))
    ensures AddQuad(INIT, Steps(INIT, x, 64)) == Quad(0x98500190, 0xb04fd23c, 0x7d3f96d6, 0x727fe128)
  {
    hide Steps;
  }

  // ----- the digests ------------------------------------------------------------------------------------

  lemma {:induction false} ZeroAt(n: nat, k: nat)
    requires k < n
    ensures Zeros(n)[k] == 0
  {
  }

  /** A message of less than 56 bytes is padded to one block. */
  lemma OneBlock(m: seq<Byte>)
    requires |m| < 56
    ensures var p := m + Padding(|m|) + LengthBytes(|m|);
            |p| == 64 && Digest(m) == Output(AddQuad(INIT, Steps(INIT, WordsOf(p), 64)))
    ensures var p := m + Padding(|m|) + LengthBytes(|m|);
            && p[..|m|] == m && p[|m|] == 0x80 && (forall k :: |m| < k < 56 ==> p[k] == 0)
            && p[56] == (8 * |m| % 256) as Byte && p[57] == (8 * |m| / 256) as Byte && forall k :: 58 <= k < 64 ==> p[k] == 0
  {
    hide Steps, Output, AddQuad;
    var p := m + Padding(|m|) + LengthBytes(|m|);
    var zeros := Zeros(55 - |m|);
    assert Padding(|m|) == [0x80] + zeros;
    assert |p| == 64 && p[..64] == p && p[64..] == [];
    assert Absorb(INIT, p) == Absorb(Compress(INIT, p), []);
    LengthSmall(|m|);
  }

  lemma LengthSmall(n: nat)
    requires n < 56
    ensures LengthBytes(n) == [(8 * n % 256) as Byte, (8 * n / 256) as Byte, 0, 0, 0, 0, 0, 0]
  {
  }

  lemma {:induction false} HexJoins(s: seq<Byte>, t: seq<Byte>)
    ensures Hex(s + t) == Hex(s) + Hex(t)
  {
    if s == [] {
      assert s + t == t;
    } else {
      assert (s + t)[1..] == s[1..] + t;
      HexJoins(s[1..], t);
    }
  }

  /** The digits of a word in the order of its bytes. */
  lemma HexOfWord(w: Word, h0: nat, l0: nat, h1: nat, l1: nat, h2: nat, l2: nat, h3: nat, l3: nat)
    requires h0 < 16 && l0 < 16 && h1 < 16 && l1 < 16 && h2 < 16 && l2 < 16 && h3 < 16 && l3 < 16
    requires w == (16 * h0 + l0) + 0x100 * (16 * h1 + l1) + 0x1_0000 * (16 * h2 + l2) + 0x100_0000 * (16 * h3 + l3)
    ensures Hex(BytesOf(w)) == [HexDigit(h0), HexDigit(l0), HexDigit(h1), HexDigit(l1), HexDigit(h2), HexDigit(l2), HexDigit(h3), HexDigit(l3)]
  {
    hide HexDigit, Hex, BytesOf;
    var b0, b1, b2, b3 := (16 * h0 + l0) as Byte, (16 * h1 + l1) as Byte, (16 * h2 + l2) as Byte, (16 * h3 + l3) as Byte;
    WordBytes(w, b0, b1, b2, b3);
    FourBytes(b0, b1, b2, b3);
    TwoDigits(b0, h0, l0);
    TwoDigits(b1, h1, l1);
    TwoDigits(b2, h2, l2);
    TwoDigits(b3, h3, l3);
  }

  lemma WordBytes(w: Word, b0: Byte, b1: Byte, b2: Byte, b3: Byte)
    requires w == b0 as int + 0x100 * (b1 as int) + 0x1_0000 * (b2 as int) + 0x100_0000 * (b3 as int)
    ensures BytesOf(w) == [b0, b1, b2, b3]
  {
    assert w / 0x100 == b1 as int + 0x100 * (b2 as int) + 0x1_0000 * (b3 as int);
    assert w / 0x1_0000 == b2 as int + 0x100 * (b3 as int);
  }

  lemma TwoDigits(b: Byte, high: nat, low: nat)
    requires b as int == 16 * high + low && high < 16 && low < 16
    ensures HexByte(b) == [HexDigit(high), HexDigit(low)]
  {
    hide HexDigit;
  }

  lemma FourBytes(b0: Byte, b1: Byte, b2: Byte, b3: Byte)
    ensures Hex([b0, b1, b2, b3]) == HexByte(b0) + HexByte(b1) + HexByte(b2) + HexByte(b3)
  {
    hide HexDigit;
    HexJoins([b0], [b1]);
    HexJoins([b0, b1], [b2]);
    HexJoins([b0, b1, b2], [b3]);
    OneByte(b0);
    OneByte(b1);
    OneByte(b2);
    OneByte(b3);
    assert [b0] + [b1] == [b0, b1] && [b0, b1] + [b2] == [b0, b1, b2] && [b0, b1, b2] + [b3] == [b0, b1, b2, b3];
  }

  lemma OneByte(b: Byte)
    ensures Hex([b]) == HexByte(b)
  {
    hide HexDigit;
    assert [b][1..] == [];
  }

  function HexByte(b: Byte): string {
    [HexDigit(b as int / 16), HexDigit(b as int % 16)]
  }

  lemma HexDigits()
    ensures HexDigit(0) == '0' && HexDigit(1) == '1' && HexDigit(2) == '2' && HexDigit(3) == '3'
    ensures HexDigit(4) == '4' && HexDigit(5) == '5' && HexDigit(6) == '6' && HexDigit(7) == '7'
    ensures HexDigit(8) == '8' && HexDigit(9) == '9' && HexDigit(10) == 'a' && HexDigit(11) == 'b'
    ensures HexDigit(12) == 'c' && HexDigit(13) == 'd' && HexDigit(14) == 'e' && HexDigit(15) == 'f'
  {
  }

  lemma HexOfQuad(q: Quad)
    ensures Hex(Output(q)) == Hex(BytesOf(q.a)) + Hex(BytesOf(q.b)) + Hex(BytesOf(q.c)) + Hex(BytesOf(q.d))
  {
    hide BytesOf, Hex;
    HexJoins(BytesOf(q.a), BytesOf(q.b));
    HexJoins(BytesOf(q.a) + BytesOf(q.b), BytesOf(q.c));
    HexJoins(BytesOf(q.a) + BytesOf(q.b) + BytesOf(q.c), BytesOf(q.d));
  }

  /** MD5 ("") */
  lemma EmptyDigest()
    ensures Hex(Digest([])) == "d41d8cd98f00b204e9800998ecf8427e"
  {
    hide Steps, AddQuad, Digest, Hex, BytesOf, Padding, LengthBytes, WordsOf;
    EmptyWords();
    var m: seq<Byte> := [];
    OneBlock(m);
    var x := WordsOf(m + Padding(|m|) + LengthBytes(|m|));
    EmptyBlock(x);
    HexOfQuad(Quad(0xd98c1dd4, 0x4b2008f, 0x980980e9, 0x7e42f8ec));
    EmptyHex();
  }

  lemma EmptyHex()
    ensures Hex(BytesOf(0xd98c1dd4)) + Hex(BytesOf(0x4b2008f)) + Hex(BytesOf(0x980980e9)) + Hex(BytesOf(0x7e42f8ec)) == "d41d8cd98f00b204e9800998ecf8427e"
  {
    hide Hex, BytesOf, HexDigit;
    HexDigits();
    HexOfWord(0xd98c1dd4, 13, 4, 1, 13, 8, 12, 13, 9);
    HexOfWord(0x4b2008f, 8, 15, 0, 0, 11, 2, 0, 4);
    HexOfWord(0x980980e9, 14, 9, 8, 0, 0, 9, 9, 8);
    HexOfWord(0x7e42f8ec, 14, 12, 15, 8, 4, 2, 7, 14);
  }

  lemma EmptyWords()
    ensures var m: seq<Byte> := [];
            |m + Padding(|m|) + LengthBytes(|m|)| == 64 && IsEmpty(WordsOf(m + Padding(|m|) + LengthBytes(|m|)))
  {
    hide Padding, LengthBytes;
    OneBlock([]);
  }

  /** MD5 ("abc") */
  lemma AbcDigest()
    ensures Hex(Digest([0x61, 0x62, 0x63])) == "900150983cd24fb0d6963f7d28e17f72"
  {
    hide Steps, AddQuad, Digest, Hex, BytesOf, Padding, LengthBytes, WordsOf;
    AbcWords();
    var m: seq<Byte> := [0x61, 0x62, 0x63];
    OneBlock(m);
    var x := WordsOf(m + Padding(|m|) + LengthBytes(|m|));
    AbcBlock(x);
    HexOfQuad(Quad(0x98500190, 0xb04fd23c, 0x7d3f96d6, 0x727fe128));
    AbcHex();
  }

  lemma AbcHex()
    ensures Hex(BytesOf(0x98500190)) + Hex(BytesOf(0xb04fd23c)) + Hex(BytesOf(0x7d3f96d6)) + Hex(BytesOf(0x727fe128)) == "900150983cd24fb0d6963f7d28e17f72"
  {
    hide Hex, BytesOf, HexDigit;
    HexDigits();
    HexOfWord(0x98500190, 9, 0, 0, 1, 5, 0, 9, 8);
    HexOfWord(0xb04fd23c, 3, 12, 13, 2, 4, 15, 11, 0);
    HexOfWord(0x7d3f96d6, 13, 6, 9, 6, 3, 15, 7, 13);
    HexOfWord(0x727fe128, 2, 8, 14, 1, 7, 15, 7, 2);
  }

  lemma AbcWords()
    ensures var m: seq<Byte> := [0x61, 0x62, 0x63];
            |m + Padding(|m|) + LengthBytes(|m|)| == 64 && IsAbc(WordsOf(m + Padding(|m|) + LengthBytes(|m|)))
  {
    hide Padding, LengthBytes;
    OneBlock([0x61, 0x62, 0x63]);
  }

  // ----- the length -----------------------------------------------------------------------------------

  /** Section 3.2: the last two words of the padded message are the number of bits, 64 of them, low word first. */
  lemma LengthIs(n: nat)
    ensures WordAt(LengthBytes(n), 0) + UNSIGNED_INT * WordAt(LengthBytes(n), 1) == 8 * n % UNSIGNED_LONG
  {
    hide BytesOf, WordAt;
    var bits := 8 * n % UNSIGNED_LONG;
    BytesWord(bits % UNSIGNED_INT);
    BytesWord(bits / UNSIGNED_INT);
    FrontWord(BytesOf(bits % UNSIGNED_INT), BytesOf(bits / UNSIGNED_INT));
  }

  lemma FrontWord(s: seq<Byte>, t: seq<Byte>)
    requires |s| == 4 && |t| == 4
    ensures WordAt(s + t, 0) == WordAt(s, 0) && WordAt(s + t, 1) == WordAt(t, 0)
  {
  }
}

/** Messages whose MD5 digest section A.5 of RFC 1321 gives. */
module Md5Values {
  import opened Blocks
  import opened Md5
  import opened Numbers

  /** A block of which all words are zero but the first and the fifteenth. */
  ghost predicate Words(block: seq<Byte>, first: Word, length: Word) {
    && WordAt(block, 0) == first && WordAt(block, 14) == length && WordAt(block, 15) == 0
    && forall n :: 1 <= n < 14 ==> WordAt(block, n) == 0
  }

  /** The line for step i in section 3.4: the word, the constant and the shift. */
  ghost predicate Row(i: nat, index: nat, t: Word, s: Amount) {
    i < 64 && Index(i) == index && T(i) == t && Shift(i) == s
  }

  /** Step i makes the word w. */
  lemma Go(block: seq<Byte>, i: nat, k: nat, x: Word, t: Word, s: Amount,
    a: Word, b: Word, c: Word, d: Word, w: Word)
    requires Row(i, k, t, s) && WordAt(block, k) == x
    requires RfcWord(b, a, RfcRound(i, b, c, d), x, t, s) == w
    ensures RfcSteps(Quad(a, b, c, d), block, i) == RfcSteps(Quad(d, w, b, c), block, i + 1)
  {
    hide RfcWord, RfcRound, WordAt, T, Shift, Index;
  }

  lemma Rows1()
    ensures Row(0, 0, 0xd76aa478, 7) && Row(1, 1, 0xe8c7b756, 12)
    ensures Row(2, 2, 0x242070db, 17) && Row(3, 3, 0xc1bdceee, 22)
    ensures Row(4, 4, 0xf57c0faf, 7) && Row(5, 5, 0x4787c62a, 12)
    ensures Row(6, 6, 0xa8304613, 17) && Row(7, 7, 0xfd469501, 22)
  {
  }

  lemma Rows2()
    ensures Row(8, 8, 0x698098d8, 7) && Row(9, 9, 0x8b44f7af, 12)
    ensures Row(10, 10, 0xffff5bb1, 17) && Row(11, 11, 0x895cd7be, 22)
    ensures Row(12, 12, 0x6b901122, 7) && Row(13, 13, 0xfd987193, 12)
    ensures Row(14, 14, 0xa679438e, 17) && Row(15, 15, 0x49b40821, 22)
  {
  }

  lemma Rows3()
    ensures Row(16, 1, 0xf61e2562, 5) && Row(17, 6, 0xc040b340, 9)
    ensures Row(18, 11, 0x265e5a51, 14) && Row(19, 0, 0xe9b6c7aa, 20)
    ensures Row(20, 5, 0xd62f105d, 5) && Row(21, 10, 0x02441453, 9)
    ensures Row(22, 15, 0xd8a1e681, 14) && Row(23, 4, 0xe7d3fbc8, 20)
  {
  }

  lemma Rows4()
    ensures Row(24, 9, 0x21e1cde6, 5) && Row(25, 14, 0xc33707d6, 9)
    ensures Row(26, 3, 0xf4d50d87, 14) && Row(27, 8, 0x455a14ed, 20)
    ensures Row(28, 13, 0xa9e3e905, 5) && Row(29, 2, 0xfcefa3f8, 9)
    ensures Row(30, 7, 0x676f02d9, 14) && Row(31, 12, 0x8d2a4c8a, 20)
  {
  }

  lemma Rows5()
    ensures Row(32, 5, 0xfffa3942, 4) && Row(33, 8, 0x8771f681, 11)
    ensures Row(34, 11, 0x6d9d6122, 16) && Row(35, 14, 0xfde5380c, 23)
    ensures Row(36, 1, 0xa4beea44, 4) && Row(37, 4, 0x4bdecfa9, 11)
    ensures Row(38, 7, 0xf6bb4b60, 16) && Row(39, 10, 0xbebfbc70, 23)
  {
  }

  lemma Rows6()
    ensures Row(40, 13, 0x289b7ec6, 4) && Row(41, 0, 0xeaa127fa, 11)
    ensures Row(42, 3, 0xd4ef3085, 16) && Row(43, 6, 0x04881d05, 23)
    ensures Row(44, 9, 0xd9d4d039, 4) && Row(45, 12, 0xe6db99e5, 11)
    ensures Row(46, 15, 0x1fa27cf8, 16) && Row(47, 2, 0xc4ac5665, 23)
  {
  }

  lemma Rows7()
    ensures Row(48, 0, 0xf4292244, 6) && Row(49, 7, 0x432aff97, 10)
    ensures Row(50, 14, 0xab9423a7, 15) && Row(51, 5, 0xfc93a039, 21)
    ensures Row(52, 12, 0x655b59c3, 6) && Row(53, 3, 0x8f0ccc92, 10)
    ensures Row(54, 10, 0xffeff47d, 15) && Row(55, 1, 0x85845dd1, 21)
  {
  }

  lemma Rows8()
    ensures Row(56, 8, 0x6fa87e4f, 6) && Row(57, 15, 0xfe2ce6e0, 10)
    ensures Row(58, 6, 0xa3014314, 15) && Row(59, 13, 0x4e0811a1, 21)
    ensures Row(60, 4, 0xf7537e82, 6) && Row(61, 11, 0xbd3af235, 10)
    ensures Row(62, 2, 0x2ad7d2bb, 15) && Row(63, 9, 0xeb86d391, 21)
  {
  }

  lemma Empty1(block: seq<Byte>)
    requires Words(block, 0x00000080, 0)
    ensures RfcSteps(Quad(0x67452301, 0xefcdab89, 0x98badcfe, 0x10325476), block, 0) ==
      RfcSteps(Quad(0xf56c7cf1, 0xd6819c6a, 0x5aa53f75, 0x374943a7), block, 16)
  {
    hide RfcSteps, WordAt, T, Shift, Index;
    Rows1();
    Rows2();
    Go(block, 0, 0, 0x00000080, 0xd76aa478, 7, 0x67452301, 0xefcdab89, 0x98badcfe, 0x10325476, 0xa5202774);
    Go(block, 1, 1, 0, 0xe8c7b756, 12, 0x10325476, 0xa5202774, 0xefcdab89, 0x98badcfe, 0xf59592dd);
    Go(block, 2, 2, 0, 0x242070db, 17, 0x98badcfe, 0xf59592dd, 0xa5202774, 0xefcdab89, 0xe7f06b23);
    Go(block, 3, 3, 0, 0xc1bdceee, 22, 0xefcdab89, 0xe7f06b23, 0xf59592dd, 0xa5202774, 0x1b163203);
    Go(block, 4, 4, 0, 0xf57c0faf, 7, 0xa5202774, 0x1b163203, 0xe7f06b23, 0xf59592dd, 0x32033344);
    Go(block, 5, 5, 0, 0x4787c62a, 12, 0xf59592dd, 0x32033344, 0x1b163203, 0xe7f06b23, 0x2f35d494);
    Go(block, 6, 6, 0, 0xa8304613, 17, 0xe7f06b23, 0x2f35d494, 0x32033344, 0x1b163203, 0xf5b158db);
    Go(block, 7, 7, 0, 0xfd469501, 22, 0x1b163203, 0xf5b158db, 0x2f35d494, 0x32033344, 0x9bc13ce9);
    Go(block, 8, 8, 0, 0x698098d8, 7, 0x32033344, 0x9bc13ce9, 0xf5b158db, 0x2f35d494, 0x3893b991);
    Go(block, 9, 9, 0, 0x8b44f7af, 12, 0x2f35d494, 0x3893b991, 0x9bc13ce9, 0xf5b158db, 0xfce4a312);
    Go(block, 10, 10, 0, 0xffff5bb1, 17, 0xf5b158db, 0xfce4a312, 0x3893b991, 0x9bc13ce9, 0xe1ef0576);
    Go(block, 11, 11, 0, 0x895cd7be, 22, 0x9bc13ce9, 0xe1ef0576, 0xfce4a312, 0x3893b991, 0x70768a29);
    Go(block, 12, 12, 0, 0x6b901122, 7, 0x3893b991, 0x70768a29, 0xe1ef0576, 0xfce4a312, 0xf56c7cf1);
    Go(block, 13, 13, 0, 0xfd987193, 12, 0xfce4a312, 0xf56c7cf1, 0x70768a29, 0xe1ef0576, 0x374943a7);
    Go(block, 14, 14, 0, 0xa679438e, 17, 0xe1ef0576, 0x374943a7, 0xf56c7cf1, 0x70768a29, 0x5aa53f75);
    Go(block, 15, 15, 0, 0x49b40821, 22, 0x70768a29, 0x5aa53f75, 0x374943a7, 0xf56c7cf1, 0xd6819c6a);
  }

  lemma Empty2(block: seq<Byte>)
    requires Words(block, 0x00000080, 0)
    ensures RfcSteps(Quad(0xf56c7cf1, 0xd6819c6a, 0x5aa53f75, 0x374943a7), block, 16) ==
      RfcSteps(Quad(0x13707036, 0xa2205f1f, 0x1c31c384, 0xae7813db), block, 32)
  {
    hide RfcSteps, WordAt, T, Shift, Index;
    Rows3();
    Rows4();
    Go(block, 16, 1, 0, 0xf61e2562, 5, 0xf56c7cf1, 0xd6819c6a, 0x5aa53f75, 0x374943a7, 0x1c7d7513);
    Go(block, 17, 6, 0, 0xc040b340, 9, 0x374943a7, 0x1c7d7513, 0xd6819c6a, 0x5aa53f75, 0x7bd57a3a);
    Go(block, 18, 11, 0, 0x265e5a51, 14, 0x5aa53f75, 0x7bd57a3a, 0x1c7d7513, 0xd6819c6a, 0xc095f13a);
    Go(block, 19, 0, 0x00000080, 0xe9b6c7aa, 20, 0xd6819c6a, 0xc095f13a, 0x7bd57a3a, 0x1c7d7513, 0xbd782e17);
    Go(block, 20, 5, 0, 0xd62f105d, 5, 0x1c7d7513, 0xbd782e17, 0xc095f13a, 0x7bd57a3a, 0x3d1e3e6c);
    Go(block, 21, 10, 0, 0x02441453, 9, 0x7bd57a3a, 0x3d1e3e6c, 0xbd782e17, 0xc095f13a, 0x68b7b3e3);
    Go(block, 22, 15, 0, 0xd8a1e681, 14, 0xc095f13a, 0x68b7b3e3, 0x3d1e3e6c, 0xbd782e17, 0xeb41643e);
    Go(block, 23, 4, 0, 0xe7d3fbc8, 20, 0xbd782e17, 0xeb41643e, 0x68b7b3e3, 0x3d1e3e6c, 0xe422531a);
    Go(block, 24, 9, 0, 0x21e1cde6, 5, 0x3d1e3e6c, 0xe422531a, 0xeb41643e, 0x68b7b3e3, 0x306ec122);
    Go(block, 25, 14, 0, 0xc33707d6, 9, 0x68b7b3e3, 0x306ec122, 0xe422531a, 0xeb41643e, 0xd28c77c2);
    Go(block, 26, 3, 0, 0xf4d50d87, 14, 0xeb41643e, 0xd28c77c2, 0x306ec122, 0xe422531a, 0xa3c663da);
    Go(block, 27, 8, 0, 0x455a14ed, 20, 0xe422531a, 0xa3c663da, 0xd28c77c2, 0x306ec122, 0xa0572807);
    Go(block, 28, 13, 0, 0xa9e3e905, 5, 0x306ec122, 0xa0572807, 0xa3c663da, 0xd28c77c2, 0x13707036);
    Go(block, 29, 2, 0, 0xfcefa3f8, 9, 0xd28c77c2, 0x13707036, 0xa0572807, 0xa3c663da, 0xae7813db);
    Go(block, 30, 7, 0, 0x676f02d9, 14, 0xa3c663da, 0xae7813db, 0x13707036, 0xa0572807, 0x1c31c384);
    Go(block, 31, 12, 0, 0x8d2a4c8a, 20, 0xa0572807, 0x1c31c384, 0xae7813db, 0x13707036, 0xa2205f1f);
  }

  lemma Empty3(block: seq<Byte>)
    requires Words(block, 0x00000080, 0)
    ensures RfcSteps(Quad(0x13707036, 0xa2205f1f, 0x1c31c384, 0xae7813db), block, 32) ==
      RfcSteps(Quad(0x3f55edfd, 0xca7d2dbd, 0x68d84ea2, 0x22a31f54), block, 48)
  {
    hide RfcSteps, WordAt, T, Shift, Index;
    Rows5();
    Rows6();
    Go(block, 32, 5, 0, 0xfffa3942, 4, 0x13707036, 0xa2205f1f, 0x1c31c384, 0xae7813db, 0xdf63eaa1);
    Go(block, 33, 8, 0, 0x8771f681, 11, 0xae7813db, 0xdf63eaa1, 0xa2205f1f, 0x1c31c384, 0xc3689f5b);
    Go(block, 34, 11, 0, 0x6d9d6122, 16, 0x1c31c384, 0xc3689f5b, 0xdf63eaa1, 0xa2205f1f, 0x12f3e755);
    Go(block, 35, 14, 0, 0xfde5380c, 23, 0xa2205f1f, 0x12f3e755, 0xc3689f5b, 0xdf63eaa1, 0x004b6669);
    Go(block, 36, 1, 0, 0xa4beea44, 4, 0xdf63eaa1, 0x004b6669, 0x12f3e755, 0xc3689f5b, 0x5f7a9b2e);
    Go(block, 37, 4, 0, 0x4bdecfa9, 11, 0xc3689f5b, 0x5f7a9b2e, 0x004b6669, 0x12f3e755, 0xabc34e16);
    Go(block, 38, 7, 0, 0xf6bb4b60, 16, 0x12f3e755, 0xabc34e16, 0x5f7a9b2e, 0x004b6669, 0x91ca4cb7);
    Go(block, 39, 10, 0, 0xbebfbc70, 23, 0x004b6669, 0x91ca4cb7, 0xabc34e16, 0x5f7a9b2e, 0xc5dc8c15);
    Go(block, 40, 13, 0, 0x289b7ec6, 4, 0x5f7a9b2e, 0xc5dc8c15, 0x91ca4cb7, 0xabc34e16, 0x4497169d);
    Go(block, 41, 0, 0x00000080, 0xeaa127fa, 11, 0xabc34e16, 0x4497169d, 0xc5dc8c15, 0x91ca4cb7, 0x76fd93d4);
    Go(block, 42, 3, 0, 0xd4ef3085, 16, 0x91ca4cb7, 0x76fd93d4, 0x4497169d, 0xc5dc8c15, 0xfd95f243);
    Go(block, 43, 6, 0, 0x04881d05, 23, 0xc5dc8c15, 0xfd95f243, 0x76fd93d4, 0x4497169d, 0x0fe32453);
    Go(block, 44, 9, 0, 0xd9d4d039, 4, 0x4497169d, 0x0fe32453, 0xfd95f243, 0x76fd93d4, 0x3f55edfd);
    Go(block, 45, 12, 0, 0xe6db99e5, 11, 0x76fd93d4, 0x3f55edfd, 0x0fe32453, 0xfd95f243, 0x22a31f54);
    Go(block, 46, 15, 0, 0x1fa27cf8, 16, 0xfd95f243, 0x22a31f54, 0x3f55edfd, 0x0fe32453, 0x68d84ea2);
    Go(block, 47, 2, 0, 0xc4ac5665, 23, 0x0fe32453, 0x68d84ea2, 0x22a31f54, 0x3f55edfd, 0xca7d2dbd);
  }

  lemma Empty4(block: seq<Byte>)
    requires Words(block, 0x00000080, 0)
    ensures RfcSteps(Quad(0x3f55edfd, 0xca7d2dbd, 0x68d84ea2, 0x22a31f54), block, 48) ==
      RfcSteps(Quad(0x7246fad3, 0x14e45506, 0xff4ea3eb, 0x6e10a476), block, 64)
  {
    hide RfcSteps, WordAt, T, Shift, Index;
    Rows7();
    Rows8();
    Go(block, 48, 0, 0x00000080, 0xf4292244, 6, 0x3f55edfd, 0xca7d2dbd, 0x68d84ea2, 0x22a31f54, 0x93aa2577);
    Go(block, 49, 7, 0, 0x432aff97, 10, 0x22a31f54, 0x93aa2577, 0xca7d2dbd, 0x68d84ea2, 0x1688dc85);
    Go(block, 50, 14, 0, 0xab9423a7, 15, 0x68d84ea2, 0x1688dc85, 0x93aa2577, 0xca7d2dbd, 0xcd85b8cb);
    Go(block, 51, 5, 0, 0xfc93a039, 21, 0xca7d2dbd, 0xcd85b8cb, 0x1688dc85, 0x93aa2577, 0x561e0689);
    Go(block, 52, 12, 0, 0x655b59c3, 6, 0x93aa2577, 0x561e0689, 0xcd85b8cb, 0x1688dc85, 0x5625a114);
    Go(block, 53, 3, 0, 0x8f0ccc92, 10, 0x1688dc85, 0x5625a114, 0x561e0689, 0xcd85b8cb, 0x3450f42b);
    Go(block, 54, 10, 0, 0xffeff47d, 15, 0xcd85b8cb, 0x3450f42b, 0x5625a114, 0x561e0689, 0x392ad0d0);
    Go(block, 55, 1, 0, 0x85845dd1, 21, 0x561e0689, 0x392ad0d0, 0x3450f42b, 0x5625a114, 0x1e77fa61);
    Go(block, 56, 8, 0, 0x6fa87e4f, 6, 0x5625a114, 0x1e77fa61, 0x392ad0d0, 0x3450f42b, 0x474a9c8c);
    Go(block, 57, 15, 0, 0xfe2ce6e0, 10, 0x3450f42b, 0x474a9c8c, 0x1e77fa61, 0x392ad0d0, 0xdfce00bc);
    Go(block, 58, 6, 0, 0xa3014314, 15, 0x392ad0d0, 0xdfce00bc, 0x474a9c8c, 0x1e77fa61, 0x36594b14);
    Go(block, 59, 13, 0, 0x4e0811a1, 21, 0x1e77fa61, 0x36594b14, 0xdfce00bc, 0x474a9c8c, 0x30130182);
    Go(block, 60, 4, 0, 0xf7537e82, 6, 0x474a9c8c, 0x30130182, 0x36594b14, 0xdfce00bc, 0x7246fad3);
    Go(block, 61, 11, 0, 0xbd3af235, 10, 0xdfce00bc, 0x7246fad3, 0x30130182, 0x36594b14, 0x6e10a476);
    Go(block, 62, 2, 0, 0x2ad7d2bb, 15, 0x36594b14, 0x6e10a476, 0x7246fad3, 0x30130182, 0xff4ea3eb);
    Go(block, 63, 9, 0, 0xeb86d391, 21, 0x30130182, 0xff4ea3eb, 0x6e10a476, 0x7246fad3, 0x14e45506);
  }

  lemma Abc1(block: seq<Byte>)
    requires Words(block, 0x80636261, 0x00000018)
    ensures RfcSteps(Quad(0x67452301, 0xefcdab89, 0x98badcfe, 0x10325476), block, 0) ==
      RfcSteps(Quad(0xdda9b9a6, 0x72aff2e0, 0xe396856b, 0xa1051895), block, 16)
  {
    hide RfcSteps, WordAt, T, Shift, Index;
    Rows1();
    Rows2();
    Go(block, 0, 0, 0x80636261, 0xd76aa478, 7, 0x67452301, 0xefcdab89, 0x98badcfe, 0x10325476, 0xd6d117b4);
    Go(block, 1, 1, 0, 0xe8c7b756, 12, 0x10325476, 0xd6d117b4, 0xefcdab89, 0x98badcfe, 0x344a8432);
    Go(block, 2, 2, 0, 0x242070db, 17, 0x98badcfe, 0x344a8432, 0xd6d117b4, 0xefcdab89, 0x2f6fbd72);
    Go(block, 3, 3, 0, 0xc1bdceee, 22, 0xefcdab89, 0x2f6fbd72, 0x344a8432, 0xd6d117b4, 0x7ad956f2);
    Go(block, 4, 4, 0, 0xf57c0faf, 7, 0xd6d117b4, 0x7ad956f2, 0x2f6fbd72, 0x344a8432, 0xc73741ef);
    Go(block, 5, 5, 0, 0x4787c62a, 12, 0x344a8432, 0xc73741ef, 0x7ad956f2, 0x2f6fbd72, 0x8bac3051);
    Go(block, 6, 6, 0, 0xa8304613, 17, 0x2f6fbd72, 0x8bac3051, 0xc73741ef, 0x7ad956f2, 0x207dc67b);
    Go(block, 7, 7, 0, 0xfd469501, 22, 0x7ad956f2, 0x207dc67b, 0x8bac3051, 0xc73741ef, 0x928d99f6);
    Go(block, 8, 8, 0, 0x698098d8, 7, 0xc73741ef, 0x928d99f6, 0x207dc67b, 0x8bac3051, 0x854b3712);
    Go(block, 9, 9, 0, 0x8b44f7af, 12, 0x8bac3051, 0x854b3712, 0x928d99f6, 0x207dc67b, 0x74e2f284);
    Go(block, 10, 10, 0, 0xffff5bb1, 17, 0x207dc67b, 0x74e2f284, 0x854b3712, 0x928d99f6, 0x3020401c);
    Go(block, 11, 11, 0, 0x895cd7be, 22, 0x928d99f6, 0x3020401c, 0x74e2f284, 0x854b3712, 0x5ed49596);
    Go(block, 12, 12, 0, 0x6b901122, 7, 0x854b3712, 0x5ed49596, 0x3020401c, 0x74e2f284, 0xdda9b9a6);
    Go(block, 13, 13, 0, 0xfd987193, 12, 0x74e2f284, 0xdda9b9a6, 0x5ed49596, 0x3020401c, 0xa1051895);
    Go(block, 14, 14, 0x00000018, 0xa679438e, 17, 0x3020401c, 0xa1051895, 0xdda9b9a6, 0x5ed49596, 0xe396856b);
    Go(block, 15, 15, 0, 0x49b40821, 22, 0x5ed49596, 0xe396856b, 0xa1051895, 0xdda9b9a6, 0x72aff2e0);
  }

  lemma Abc2(block: seq<Byte>)
    requires Words(block, 0x80636261, 0x00000018)
    ensures RfcSteps(Quad(0xdda9b9a6, 0x72aff2e0, 0xe396856b, 0xa1051895), block, 16) ==
      RfcSteps(Quad(0x790a77fb, 0x726342d3, 0xa62884aa, 0x9f47e4f8), block, 32)
  {
    hide RfcSteps, WordAt, T, Shift, Index;
    Rows3();
    Rows4();
    Go(block, 16, 1, 0, 0xf61e2562, 5, 0xdda9b9a6, 0x72aff2e0, 0xe396856b, 0xa1051895, 0x3e9e9126);
    Go(block, 17, 6, 0, 0xc040b340, 9, 0xa1051895, 0x3e9e9126, 0x72aff2e0, 0xe396856b, 0x4a1d804e);
    Go(block, 18, 11, 0, 0x265e5a51, 14, 0xe396856b, 0x4a1d804e, 0x3e9e9126, 0x72aff2e0, 0xe25e1652);
    Go(block, 19, 0, 0x80636261, 0xe9b6c7aa, 20, 0x72aff2e0, 0xe25e1652, 0x4a1d804e, 0x3e9e9126, 0xb5b204e4);
    Go(block, 20, 5, 0, 0xd62f105d, 5, 0x3e9e9126, 0xb5b204e4, 0xe25e1652, 0x4a1d804e, 0x59a8ffda);
    Go(block, 21, 10, 0, 0x02441453, 9, 0x4a1d804e, 0x59a8ffda, 0xb5b204e4, 0xe25e1652, 0x6d002f1e);
    Go(block, 22, 15, 0, 0xd8a1e681, 14, 0xe25e1652, 0x6d002f1e, 0x59a8ffda, 0xb5b204e4, 0xabfc7920);
    Go(block, 23, 4, 0, 0xe7d3fbc8, 20, 0xb5b204e4, 0xabfc7920, 0x6d002f1e, 0x59a8ffda, 0x47092c07);
    Go(block, 24, 9, 0, 0x21e1cde6, 5, 0x59a8ffda, 0x47092c07, 0xabfc7920, 0x6d002f1e, 0xb7f268cf);
    Go(block, 25, 14, 0x00000018, 0xc33707d6, 9, 0x6d002f1e, 0xb7f268cf, 0x47092c07, 0xabfc7920, 0x09388eff);
    Go(block, 26, 3, 0, 0xf4d50d87, 14, 0xabfc7920, 0x09388eff, 0xb7f268cf, 0x47092c07, 0xfe1623b1);
    Go(block, 27, 8, 0, 0x455a14ed, 20, 0x47092c07, 0xfe1623b1, 0x09388eff, 0xb7f268cf, 0x786acb8f);
    Go(block, 28, 13, 0, 0xa9e3e905, 5, 0xb7f268cf, 0x786acb8f, 0xfe1623b1, 0x09388eff, 0x790a77fb);
    Go(block, 29, 2, 0, 0xfcefa3f8, 9, 0x09388eff, 0x790a77fb, 0x786acb8f, 0xfe1623b1, 0x9f47e4f8);
    Go(block, 30, 7, 0, 0x676f02d9, 14, 0xfe1623b1, 0x9f47e4f8, 0x790a77fb, 0x786acb8f, 0xa62884aa);
    Go(block, 31, 12, 0, 0x8d2a4c8a, 20, 0x786acb8f, 0xa62884aa, 0x9f47e4f8, 0x790a77fb, 0x726342d3);
  }

  lemma Abc3(block: seq<Byte>)
    requires Words(block, 0x80636261, 0x00000018)
    ensures RfcSteps(Quad(0x790a77fb, 0x726342d3, 0xa62884aa, 0x9f47e4f8), block, 32) ==
      RfcSteps(Quad(0x7f2e507b, 0x7beb9700, 0x8fae6399, 0x99d9679d), block, 48)
  {
    hide RfcSteps, WordAt, T, Shift, Index;
    Rows5();
    Rows6();
    Go(block, 32, 5, 0, 0xfffa3942, 4, 0x790a77fb, 0x726342d3, 0xa62884aa, 0x9f47e4f8, 0xb3707ebf);
    Go(block, 33, 8, 0, 0x8771f681, 11, 0x9f47e4f8, 0xb3707ebf, 0x726342d3, 0xa62884aa, 0x60127b2e);
    Go(block, 34, 11, 0, 0x6d9d6122, 16, 0xa62884aa, 0x60127b2e, 0xb3707ebf, 0x726342d3, 0x8d212ff5);
    Go(block, 35, 14, 0x00000018, 0xfde5380c, 23, 0x726342d3, 0x8d212ff5, 0x60127b2e, 0xb3707ebf, 0x3b0875c7);
    Go(block, 36, 1, 0, 0xa4beea44, 4, 0xb3707ebf, 0x3b0875c7, 0x8d212ff5, 0x60127b2e, 0x21b117b9);
    Go(block, 37, 4, 0, 0x4bdecfa9, 11, 0x60127b2e, 0x21b117b9, 0x3b0875c7, 0x8d212ff5, 0x6e7429d5);
    Go(block, 38, 7, 0, 0xf6bb4b60, 16, 0x8d212ff5, 0x6e7429d5, 0x21b117b9, 0x3b0875c7, 0x3575227e);
    Go(block, 39, 10, 0, 0xbebfbc70, 23, 0x3b0875c7, 0x3575227e, 0x6e7429d5, 0x21b117b9, 0x5a2f5ea5);
    Go(block, 40, 13, 0, 0x289b7ec6, 4, 0x21b117b9, 0x5a2f5ea5, 0x3575227e, 0x6e7429d5, 0x11de1779);
    Go(block, 41, 0, 0x80636261, 0xeaa127fa, 11, 0x6e7429d5, 0x11de1779, 0x5a2f5ea5, 0x3575227e, 0xfadcaa38);
    Go(block, 42, 3, 0, 0xd4ef3085, 16, 0x3575227e, 0xfadcaa38, 0x11de1779, 0x5a2f5ea5, 0x31c465ca);
    Go(block, 43, 6, 0, 0x04881d05, 23, 0x5a2f5ea5, 0x31c465ca, 0xfadcaa38, 0x11de1779, 0x4c6124f4);
    Go(block, 44, 9, 0, 0xd9d4d039, 4, 0x11de1779, 0x4c6124f4, 0x31c465ca, 0xfadcaa38, 0x7f2e507b);
    Go(block, 45, 12, 0, 0xe6db99e5, 11, 0xfadcaa38, 0x7f2e507b, 0x4c6124f4, 0x31c465ca, 0x99d9679d);
    Go(block, 46, 15, 0, 0x1fa27cf8, 16, 0x31c465ca, 0x99d9679d, 0x7f2e507b, 0x4c6124f4, 0x8fae6399);
    Go(block, 47, 2, 0, 0xc4ac5665, 23, 0x4c6124f4, 0x8fae6399, 0x99d9679d, 0x7f2e507b, 0x7beb9700);
  }

  lemma Abc4(block: seq<Byte>)
    requires Words(block, 0x80636261, 0x00000018)
    ensures RfcSteps(Quad(0x7f2e507b, 0x7beb9700, 0x8fae6399, 0x99d9679d), block, 48) ==
      RfcSteps(Quad(0x310ade8f, 0xc08226b3, 0xe484b9d8, 0x624d8cb2), block, 64)
  {
    hide RfcSteps, WordAt, T, Shift, Index;
    Rows7();
    Rows8();
    Go(block, 48, 0, 0x80636261, 0xf4292244, 6, 0x7f2e507b, 0x7beb9700, 0x8fae6399, 0x99d9679d, 0x7b201df8);
    Go(block, 49, 7, 0, 0x432aff97, 10, 0x99d9679d, 0x7b201df8, 0x7beb9700, 0x8fae6399, 0xf4e8e96e);
    Go(block, 50, 14, 0x00000018, 0xab9423a7, 15, 0x8fae6399, 0xf4e8e96e, 0x7b201df8, 0x7beb9700, 0xb298cefd);
    Go(block, 51, 5, 0, 0xfc93a039, 21, 0x7beb9700, 0xb298cefd, 0xf4e8e96e, 0x7b201df8, 0x8bf025c4);
    Go(block, 52, 12, 0, 0x655b59c3, 6, 0x7b201df8, 0x8bf025c4, 0xb298cefd, 0xf4e8e96e, 0x06cc5e8a);
    Go(block, 53, 3, 0, 0x8f0ccc92, 10, 0xf4e8e96e, 0x06cc5e8a, 0x8bf025c4, 0xb298cefd, 0x5b0d97aa);
    Go(block, 54, 10, 0, 0xffeff47d, 15, 0xb298cefd, 0x5b0d97aa, 0x06cc5e8a, 0x8bf025c4, 0x7d632dd0);
    Go(block, 55, 1, 0, 0x85845dd1, 21, 0x8bf025c4, 0x7d632dd0, 0x5b0d97aa, 0x06cc5e8a, 0x3bfa2c27);
    Go(block, 56, 8, 0, 0x6fa87e4f, 6, 0x06cc5e8a, 0x3bfa2c27, 0x7d632dd0, 0x5b0d97aa, 0x7f81cc35);
    Go(block, 57, 15, 0, 0xfe2ce6e0, 10, 0x5b0d97aa, 0x7f81cc35, 0x3bfa2c27, 0x7d632dd0, 0x094454ab);
    Go(block, 58, 6, 0, 0xa3014314, 15, 0x7d632dd0, 0x094454ab, 0x7f81cc35, 0x3bfa2c27, 0x4f9dbe3f);
    Go(block, 59, 13, 0, 0x4e0811a1, 21, 0x3bfa2c27, 0x4f9dbe3f, 0x094454ab, 0x7f81cc35, 0x7327d604);
    Go(block, 60, 4, 0, 0xf7537e82, 6, 0x7f81cc35, 0x7327d604, 0x4f9dbe3f, 0x094454ab, 0x310ade8f);
    Go(block, 61, 11, 0, 0xbd3af235, 10, 0x094454ab, 0x310ade8f, 0x7327d604, 0x4f9dbe3f, 0x624d8cb2);
    Go(block, 62, 2, 0, 0x2ad7d2bb, 15, 0x4f9dbe3f, 0x624d8cb2, 0x310ade8f, 0x7327d604, 0xe484b9d8);
    Go(block, 63, 9, 0, 0xeb86d391, 21, 0x7327d604, 0xe484b9d8, 0x624d8cb2, 0x310ade8f, 0xc08226b3);
  }

  lemma FourBytes(block: seq<Byte>, n: nat, a: Word, b: Word, c: Word, d: Word, w: Word)
    requires |block| == BLOCK && n < 16 && a | (b << 8) | (c << 16) | (d << 24) == w
    requires block[4 * n] as bv32 == a && block[4 * n + 1] as bv32 == b
    requires block[4 * n + 2] as bv32 == c && block[4 * n + 3] as bv32 == d
    ensures WordAt(block, n) == w
  {
  }

  lemma LittleEndian(v: int, a: Byte, b: Byte, c: Byte, d: Byte)
    requires v == a + 256 * (b + 256 * (c + 256 * d))
    ensures 0 <= v < U32 && Le32(v) == [a, b, c, d]
  {
    DivMod(v, 256, b + 256 * (c + 256 * d), a);
    DivMod(v / 256, 256, c + 256 * d, b);
    DivMod(v, 0x1_0000, c + 256 * d, a + 256 * b);
    DivMod(c + 256 * d, 256, d, c);
    DivMod(v, 0x100_0000, d, a + 256 * (b + 256 * c));
  }

  lemma LastStep(q: Quad, block: seq<Byte>)
    ensures RfcSteps(q, block, 64) == q
  {
  }

  lemma ZeroWords(block: seq<Byte>, from: nat, to: nat)
    requires |block| == BLOCK && from <= to <= 16 && forall i :: 4 * from <= i < 4 * to ==> block[i] == 0
    ensures forall n :: from <= n < to ==> WordAt(block, n) == 0
  {
    forall n | from <= n < to ensures WordAt(block, n) == 0 { ZeroWord(At(block, 4 * n)); }
  }

  lemma ZeroWord(w: Word)
    requires w == 0
    ensures w | (w << 8) | (w << 16) | (w << 24) == 0
  {
  }

  /** Padding of a message of less than a word. */
  lemma ShortBlock(m: seq<Byte>)
    requires |m| < 4
    ensures var p := Padded(m);
      && |p| == BLOCK && m + [0x80] <= p && p[56] == 8 * |m|
      && forall i :: |m| < i < BLOCK && i != 56 ==> p[i] == 0
  {
    assert LengthOf(|m|) == [8 * |m|, 0, 0, 0, 0, 0, 0, 0];
  }

  lemma EmptyWords(p: seq<Byte>)
    requires |p| == BLOCK && p[0] == 0x80 && p[1] == 0 && p[2] == 0 && p[3] == 0
    requires p[56] == 0 && forall i :: 4 <= i < BLOCK && i != 56 ==> p[i] == 0
    ensures Words(p, 0x00000080, 0)
  {
    hide WordAt;
    ZeroWords(p, 1, 14);
    ZeroWords(p, 15, 16);
    FourBytes(p, 0, 0x80, 0, 0, 0, 0x00000080);
    FourBytes(p, 14, 0, 0, 0, 0, 0);
  }

  lemma EmptyBlock()
    ensures |Padded([])| == BLOCK && Words(Padded([]), 0x00000080, 0)
  {
    hide Padded, Words;
    ShortBlock([]);
    EmptyWords(Padded([]));
  }

  lemma EmptyCompressed(block: seq<Byte>)
    requires Words(block, 0x00000080, 0)
    ensures Compress(INIT, block) == Quad(0xd98c1dd4, 0x04b2008f, 0x980980e9, 0x7e42f8ec)
  {
    hide Compress, RfcSteps, Words;
    CompressIsRfc(INIT, block);
    Empty1(block);
    Empty2(block);
    Empty3(block);
    Empty4(block);
    LastStep(Quad(0x7246fad3, 0x14e45506, 0xff4ea3eb, 0x6e10a476), block);
  }

  /** The digest of the empty message. */
  lemma EmptyDigest()
    ensures Digest([]) ==
      [0xd4, 0x1d, 0x8c, 0xd9, 0x8f, 0x00, 0xb2, 0x04,
       0xe9, 0x80, 0x09, 0x98, 0xec, 0xf8, 0x42, 0x7e]
  {
    hide Compress, Words, Padded, Le32;
    EmptyBlock();
    EmptyCompressed(Padded([]));
    FoldOne(Compress, INIT, Padded([]));
    LittleEndian(0xd98c1dd4, 0xd4, 0x1d, 0x8c, 0xd9);
    LittleEndian(0x04b2008f, 0x8f, 0x00, 0xb2, 0x04);
    LittleEndian(0x980980e9, 0xe9, 0x80, 0x09, 0x98);
    LittleEndian(0x7e42f8ec, 0xec, 0xf8, 0x42, 0x7e);
  }

  lemma AbcWords(p: seq<Byte>)
    requires |p| == BLOCK && p[0] == 0x61 && p[1] == 0x62 && p[2] == 0x63 && p[3] == 0x80
    requires p[56] == 24 && forall i :: 4 <= i < BLOCK && i != 56 ==> p[i] == 0
    ensures Words(p, 0x80636261, 0x00000018)
  {
    hide WordAt;
    ZeroWords(p, 1, 14);
    ZeroWords(p, 15, 16);
    FourBytes(p, 0, 0x61, 0x62, 0x63, 0x80, 0x80636261);
    FourBytes(p, 14, 0x00000018, 0, 0, 0, 0x00000018);
  }

  lemma AbcBlock()
    ensures |Padded([0x61, 0x62, 0x63])| == BLOCK && Words(Padded([0x61, 0x62, 0x63]), 0x80636261, 0x00000018)
  {
    hide Padded, Words;
    ShortBlock([0x61, 0x62, 0x63]);
    assert [0x61, 0x62, 0x63, 0x80] == [0x61, 0x62, 0x63] + [0x80];
    AbcWords(Padded([0x61, 0x62, 0x63]));
  }

  lemma AbcCompressed(block: seq<Byte>)
    requires Words(block, 0x80636261, 0x00000018)
    ensures Compress(INIT, block) == Quad(0x98500190, 0xb04fd23c, 0x7d3f96d6, 0x727fe128)
  {
    hide Compress, RfcSteps, Words;
    CompressIsRfc(INIT, block);
    Abc1(block);
    Abc2(block);
    Abc3(block);
    Abc4(block);
    LastStep(Quad(0x310ade8f, 0xc08226b3, 0xe484b9d8, 0x624d8cb2), block);
  }

  /** The digest of "abc". */
  lemma AbcDigest()
    ensures Digest([0x61, 0x62, 0x63]) ==
      [0x90, 0x01, 0x50, 0x98, 0x3c, 0xd2, 0x4f, 0xb0,
       0xd6, 0x96, 0x3f, 0x7d, 0x28, 0xe1, 0x7f, 0x72]
  {
    hide Compress, Words, Padded, Le32;
    AbcBlock();
    AbcCompressed(Padded([0x61, 0x62, 0x63]));
    FoldOne(Compress, INIT, Padded([0x61, 0x62, 0x63]));
    LittleEndian(0x98500190, 0x90, 0x01, 0x50, 0x98);
    LittleEndian(0xb04fd23c, 0x3c, 0xd2, 0x4f, 0xb0);
    LittleEndian(0x7d3f96d6, 0xd6, 0x96, 0x3f, 0x7d);
    LittleEndian(0x727fe128, 0x28, 0xe1, 0x7f, 0x72);
  }
}

/**
 The first entry of the test suite in RFC 1321, section A.5, operation by
 operation: the empty message, padded to one block.
 */
module Md5Suite {
  import opened Md5

  predicate IsEmptyBlock(x: Block) {
    x[0] == 0x80 && forall i :: 1 <= i < 16 ==> x[i] == 0
  }

  lemma EmptyOperations1()
    ensures Operation(Round1, 0, 0x67452301, 0xefcdab89, 0x98badcfe, 0x10325476, 0x80, 0xd76aa478) == 0xa5202774
    ensures Operation(Round1, 1, 0x10325476, 0xa5202774, 0xefcdab89, 0x98badcfe, 0, 0xe8c7b756) == 0xf59592dd
    ensures Operation(Round1, 2, 0x98badcfe, 0xf59592dd, 0xa5202774, 0xefcdab89, 0, 0x242070db) == 0xe7f06b23
    ensures Operation(Round1, 3, 0xefcdab89, 0xe7f06b23, 0xf59592dd, 0xa5202774, 0, 0xc1bdceee) == 0x1b163203
  {
  }

  lemma EmptyOperations2()
    ensures Operation(Round1, 0, 0xa5202774, 0x1b163203, 0xe7f06b23, 0xf59592dd, 0, 0xf57c0faf) == 0x32033344
    ensures Operation(Round1, 1, 0xf59592dd, 0x32033344, 0x1b163203, 0xe7f06b23, 0, 0x4787c62a) == 0x2f35d494
    ensures Operation(Round1, 2, 0xe7f06b23, 0x2f35d494, 0x32033344, 0x1b163203, 0, 0xa8304613) == 0xf5b158db
    ensures Operation(Round1, 3, 0x1b163203, 0xf5b158db, 0x2f35d494, 0x32033344, 0, 0xfd469501) == 0x9bc13ce9
  {
  }

  lemma EmptyOperations3()
    ensures Operation(Round1, 0, 0x32033344, 0x9bc13ce9, 0xf5b158db, 0x2f35d494, 0, 0x698098d8) == 0x3893b991
    ensures Operation(Round1, 1, 0x2f35d494, 0x3893b991, 0x9bc13ce9, 0xf5b158db, 0, 0x8b44f7af) == 0xfce4a312
    ensures Operation(Round1, 2, 0xf5b158db, 0xfce4a312, 0x3893b991, 0x9bc13ce9, 0, 0xffff5bb1) == 0xe1ef0576
    ensures Operation(Round1, 3, 0x9bc13ce9, 0xe1ef0576, 0xfce4a312, 0x3893b991, 0, 0x895cd7be) == 0x70768a29
  {
  }

  lemma EmptyOperations4()
    ensures Operation(Round1, 0, 0x3893b991, 0x70768a29, 0xe1ef0576, 0xfce4a312, 0, 0x6b901122) == 0xf56c7cf1
    ensures Operation(Round1, 1, 0xfce4a312, 0xf56c7cf1, 0x70768a29, 0xe1ef0576, 0, 0xfd987193) == 0x374943a7
    ensures Operation(Round1, 2, 0xe1ef0576, 0x374943a7, 0xf56c7cf1, 0x70768a29, 0, 0xa679438e) == 0x5aa53f75
    ensures Operation(Round1, 3, 0x70768a29, 0x5aa53f75, 0x374943a7, 0xf56c7cf1, 0, 0x49b40821) == 0xd6819c6a
  {
  }

  lemma EmptyOperations5()
    ensures Operation(Round2, 0, 0xf56c7cf1, 0xd6819c6a, 0x5aa53f75, 0x374943a7, 0, 0xf61e2562) == 0x1c7d7513
    ensures Operation(Round2, 1, 0x374943a7, 0x1c7d7513, 0xd6819c6a, 0x5aa53f75, 0, 0xc040b340) == 0x7bd57a3a
    ensures Operation(Round2, 2, 0x5aa53f75, 0x7bd57a3a, 0x1c7d7513, 0xd6819c6a, 0, 0x265e5a51) == 0xc095f13a
    ensures Operation(Round2, 3, 0xd6819c6a, 0xc095f13a, 0x7bd57a3a, 0x1c7d7513, 0x80, 0xe9b6c7aa) == 0xbd782e17
  {
  }

  lemma EmptyOperations6()
    ensures Operation(Round2, 0, 0x1c7d7513, 0xbd782e17, 0xc095f13a, 0x7bd57a3a, 0, 0xd62f105d) == 0x3d1e3e6c
    ensures Operation(Round2, 1, 0x7bd57a3a, 0x3d1e3e6c, 0xbd782e17, 0xc095f13a, 0, 0x02441453) == 0x68b7b3e3
    ensures Operation(Round2, 2, 0xc095f13a, 0x68b7b3e3, 0x3d1e3e6c, 0xbd782e17, 0, 0xd8a1e681) == 0xeb41643e
    ensures Operation(Round2, 3, 0xbd782e17, 0xeb41643e, 0x68b7b3e3, 0x3d1e3e6c, 0, 0xe7d3fbc8) == 0xe422531a
  {
  }

  lemma EmptyOperations7()
    ensures Operation(Round2, 0, 0x3d1e3e6c, 0xe422531a, 0xeb41643e, 0x68b7b3e3, 0, 0x21e1cde6) == 0x306ec122
    ensures Operation(Round2, 1, 0x68b7b3e3, 0x306ec122, 0xe422531a, 0xeb41643e, 0, 0xc33707d6) == 0xd28c77c2
    ensures Operation(Round2, 2, 0xeb41643e, 0xd28c77c2, 0x306ec122, 0xe422531a, 0, 0xf4d50d87) == 0xa3c663da
    ensures Operation(Round2, 3, 0xe422531a, 0xa3c663da, 0xd28c77c2, 0x306ec122, 0, 0x455a14ed) == 0xa0572807
  {
  }

  lemma EmptyOperations8()
    ensures Operation(Round2, 0, 0x306ec122, 0xa0572807, 0xa3c663da, 0xd28c77c2, 0, 0xa9e3e905) == 0x13707036
    ensures Operation(Round2, 1, 0xd28c77c2, 0x13707036, 0xa0572807, 0xa3c663da, 0, 0xfcefa3f8) == 0xae7813db
    ensures Operation(Round2, 2, 0xa3c663da, 0xae7813db, 0x13707036, 0xa0572807, 0, 0x676f02d9) == 0x1c31c384
    ensures Operation(Round2, 3, 0xa0572807, 0x1c31c384, 0xae7813db, 0x13707036, 0, 0x8d2a4c8a) == 0xa2205f1f
  {
  }

  lemma EmptyOperations9()
    ensures Operation(Round3, 0, 0x13707036, 0xa2205f1f, 0x1c31c384, 0xae7813db, 0, 0xfffa3942) == 0xdf63eaa1
    ensures Operation(Round3, 1, 0xae7813db, 0xdf63eaa1, 0xa2205f1f, 0x1c31c384, 0, 0x8771f681) == 0xc3689f5b
    ensures Operation(Round3, 2, 0x1c31c384, 0xc3689f5b, 0xdf63eaa1, 0xa2205f1f, 0, 0x6d9d6122) == 0x12f3e755
    ensures Operation(Round3, 3, 0xa2205f1f, 0x12f3e755, 0xc3689f5b, 0xdf63eaa1, 0, 0xfde5380c) == 0x004b6669
  {
  }

  lemma EmptyOperations10()
    ensures Operation(Round3, 0, 0xdf63eaa1, 0x004b6669, 0x12f3e755, 0xc3689f5b, 0, 0xa4beea44) == 0x5f7a9b2e
    ensures Operation(Round3, 1, 0xc3689f5b, 0x5f7a9b2e, 0x004b6669, 0x12f3e755, 0, 0x4bdecfa9) == 0xabc34e16
    ensures Operation(Round3, 2, 0x12f3e755, 0xabc34e16, 0x5f7a9b2e, 0x004b6669, 0, 0xf6bb4b60) == 0x91ca4cb7
    ensures Operation(Round3, 3, 0x004b6669, 0x91ca4cb7, 0xabc34e16, 0x5f7a9b2e, 0, 0xbebfbc70) == 0xc5dc8c15
  {
  }

  lemma EmptyOperations11()
    ensures Operation(Round3, 0, 0x5f7a9b2e, 0xc5dc8c15, 0x91ca4cb7, 0xabc34e16, 0, 0x289b7ec6) == 0x4497169d
    ensures Operation(Round3, 1, 0xabc34e16, 0x4497169d, 0xc5dc8c15, 0x91ca4cb7, 0x80, 0xeaa127fa) == 0x76fd93d4
    ensures Operation(Round3, 2, 0x91ca4cb7, 0x76fd93d4, 0x4497169d, 0xc5dc8c15, 0, 0xd4ef3085) == 0xfd95f243
    ensures Operation(Round3, 3, 0xc5dc8c15, 0xfd95f243, 0x76fd93d4, 0x4497169d, 0, 0x04881d05) == 0x0fe32453
  {
  }

  lemma EmptyOperations12()
    ensures Operation(Round3, 0, 0x4497169d, 0x0fe32453, 0xfd95f243, 0x76fd93d4, 0, 0xd9d4d039) == 0x3f55edfd
    ensures Operation(Round3, 1, 0x76fd93d4, 0x3f55edfd, 0x0fe32453, 0xfd95f243, 0, 0xe6db99e5) == 0x22a31f54
    ensures Operation(Round3, 2, 0xfd95f243, 0x22a31f54, 0x3f55edfd, 0x0fe32453, 0, 0x1fa27cf8) == 0x68d84ea2
    ensures Operation(Round3, 3, 0x0fe32453, 0x68d84ea2, 0x22a31f54, 0x3f55edfd, 0, 0xc4ac5665) == 0xca7d2dbd
  {
  }

  lemma EmptyOperations13()
    ensures Operation(Round4, 0, 0x3f55edfd, 0xca7d2dbd, 0x68d84ea2, 0x22a31f54, 0x80, 0xf4292244) == 0x93aa2577
    ensures Operation(Round4, 1, 0x22a31f54, 0x93aa2577, 0xca7d2dbd, 0x68d84ea2, 0, 0x432aff97) == 0x1688dc85
    ensures Operation(Round4, 2, 0x68d84ea2, 0x1688dc85, 0x93aa2577, 0xca7d2dbd, 0, 0xab9423a7) == 0xcd85b8cb
    ensures Operation(Round4, 3, 0xca7d2dbd, 0xcd85b8cb, 0x1688dc85, 0x93aa2577, 0, 0xfc93a039) == 0x561e0689
  {
  }

  lemma EmptyOperations14()
    ensures Operation(Round4, 0, 0x93aa2577, 0x561e0689, 0xcd85b8cb, 0x1688dc85, 0, 0x655b59c3) == 0x5625a114
    ensures Operation(Round4, 1, 0x1688dc85, 0x5625a114, 0x561e0689, 0xcd85b8cb, 0, 0x8f0ccc92) == 0x3450f42b
    ensures Operation(Round4, 2, 0xcd85b8cb, 0x3450f42b, 0x5625a114, 0x561e0689, 0, 0xffeff47d) == 0x392ad0d0
    ensures Operation(Round4, 3, 0x561e0689, 0x392ad0d0, 0x3450f42b, 0x5625a114, 0, 0x85845dd1) == 0x1e77fa61
  {
  }

  lemma EmptyOperations15()
    ensures Operation(Round4, 0, 0x5625a114, 0x1e77fa61, 0x392ad0d0, 0x3450f42b, 0, 0x6fa87e4f) == 0x474a9c8c
    ensures Operation(Round4, 1, 0x3450f42b, 0x474a9c8c, 0x1e77fa61, 0x392ad0d0, 0, 0xfe2ce6e0) == 0xdfce00bc
    ensures Operation(Round4, 2, 0x392ad0d0, 0xdfce00bc, 0x474a9c8c, 0x1e77fa61, 0, 0xa3014314) == 0x36594b14
    ensures Operation(Round4, 3, 0x1e77fa61, 0x36594b14, 0xdfce00bc, 0x474a9c8c, 0, 0x4e0811a1) == 0x30130182
  {
  }

  lemma EmptyOperations16()
    ensures Operation(Round4, 0, 0x474a9c8c, 0x30130182, 0x36594b14, 0xdfce00bc, 0, 0xf7537e82) == 0x7246fad3
    ensures Operation(Round4, 1, 0xdfce00bc, 0x7246fad3, 0x30130182, 0x36594b14, 0, 0xbd3af235) == 0x6e10a476
    ensures Operation(Round4, 2, 0x36594b14, 0x6e10a476, 0x7246fad3, 0x30130182, 0, 0x2ad7d2bb) == 0xff4ea3eb
    ensures Operation(Round4, 3, 0x30130182, 0xff4ea3eb, 0x6e10a476, 0x7246fad3, 0, 0xeb86d391) == 0x14e45506
  {
  }

  lemma EmptyLine1(x: Block)
    requires IsEmptyBlock(x)
    ensures Line(Round1, State(0x67452301, 0xefcdab89, 0x98badcfe, 0x10325476), x, 0, 1, 2, 3, 0) ==
            State(0xa5202774, 0x1b163203, 0xe7f06b23, 0xf59592dd)
  {
    hide Operation;
    EmptyOperations1();
  }

  lemma EmptyLine2(x: Block)
    requires IsEmptyBlock(x)
    ensures Line(Round1, State(0xa5202774, 0x1b163203, 0xe7f06b23, 0xf59592dd), x, 4, 5, 6, 7, 4) ==
            State(0x32033344, 0x9bc13ce9, 0xf5b158db, 0x2f35d494)
  {
    hide Operation;
    EmptyOperations2();
  }

  lemma EmptyLine3(x: Block)
    requires IsEmptyBlock(x)
    ensures Line(Round1, State(0x32033344, 0x9bc13ce9, 0xf5b158db, 0x2f35d494), x, 8, 9, 10, 11, 8) ==
            State(0x3893b991, 0x70768a29, 0xe1ef0576, 0xfce4a312)
  {
    hide Operation;
    EmptyOperations3();
  }

  lemma EmptyLine4(x: Block)
    requires IsEmptyBlock(x)
    ensures Line(Round1, State(0x3893b991, 0x70768a29, 0xe1ef0576, 0xfce4a312), x, 12, 13, 14, 15, 12) ==
            State(0xf56c7cf1, 0xd6819c6a, 0x5aa53f75, 0x374943a7)
  {
    hide Operation;
    EmptyOperations4();
  }

  lemma EmptyLine5(x: Block)
    requires IsEmptyBlock(x)
    ensures Line(Round2, State(0xf56c7cf1, 0xd6819c6a, 0x5aa53f75, 0x374943a7), x, 1, 6, 11, 0, 16) ==
            State(0x1c7d7513, 0xbd782e17, 0xc095f13a, 0x7bd57a3a)
  {
    hide Operation;
    EmptyOperations5();
  }

  lemma EmptyLine6(x: Block)
    requires IsEmptyBlock(x)
    ensures Line(Round2, State(0x1c7d7513, 0xbd782e17, 0xc095f13a, 0x7bd57a3a), x, 5, 10, 15, 4, 20) ==
            State(0x3d1e3e6c, 0xe422531a, 0xeb41643e, 0x68b7b3e3)
  {
    hide Operation;
    EmptyOperations6();
  }

  lemma EmptyLine7(x: Block)
    requires IsEmptyBlock(x)
    ensures Line(Round2, State(0x3d1e3e6c, 0xe422531a, 0xeb41643e, 0x68b7b3e3), x, 9, 14, 3, 8, 24) ==
            State(0x306ec122, 0xa0572807, 0xa3c663da, 0xd28c77c2)
  {
    hide Operation;
    EmptyOperations7();
  }

  lemma EmptyLine8(x: Block)
    requires IsEmptyBlock(x)
    ensures Line(Round2, State(0x306ec122, 0xa0572807, 0xa3c663da, 0xd28c77c2), x, 13, 2, 7, 12, 28) ==
            State(0x13707036, 0xa2205f1f, 0x1c31c384, 0xae7813db)
  {
    hide Operation;
    EmptyOperations8();
  }

  lemma EmptyLine9(x: Block)
    requires IsEmptyBlock(x)
    ensures Line(Round3, State(0x13707036, 0xa2205f1f, 0x1c31c384, 0xae7813db), x, 5, 8, 11, 14, 32) ==
            State(0xdf63eaa1, 0x004b6669, 0x12f3e755, 0xc3689f5b)
  {
    hide Operation;
    EmptyOperations9();
  }

  lemma EmptyLine10(x: Block)
    requires IsEmptyBlock(x)
    ensures Line(Round3, State(0xdf63eaa1, 0x004b6669, 0x12f3e755, 0xc3689f5b), x, 1, 4, 7, 10, 36) ==
            State(0x5f7a9b2e, 0xc5dc8c15, 0x91ca4cb7, 0xabc34e16)
  {
    hide Operation;
    EmptyOperations10();
  }

  lemma EmptyLine11(x: Block)
    requires IsEmptyBlock(x)
    ensures Line(Round3, State(0x5f7a9b2e, 0xc5dc8c15, 0x91ca4cb7, 0xabc34e16), x, 13, 0, 3, 6, 40) ==
            State(0x4497169d, 0x0fe32453, 0xfd95f243, 0x76fd93d4)
  {
    hide Operation;
    EmptyOperations11();
  }

  lemma EmptyLine12(x: Block)
    requires IsEmptyBlock(x)
    ensures Line(Round3, State(0x4497169d, 0x0fe32453, 0xfd95f243, 0x76fd93d4), x, 9, 12, 15, 2, 44) ==
            State(0x3f55edfd, 0xca7d2dbd, 0x68d84ea2, 0x22a31f54)
  {
    hide Operation;
    EmptyOperations12();
  }

  lemma EmptyLine13(x: Block)
    requires IsEmptyBlock(x)
    ensures Line(Round4, State(0x3f55edfd, 0xca7d2dbd, 0x68d84ea2, 0x22a31f54), x, 0, 7, 14, 5, 48) ==
            State(0x93aa2577, 0x561e0689, 0xcd85b8cb, 0x1688dc85)
  {
    hide Operation;
    EmptyOperations13();
  }

  lemma EmptyLine14(x: Block)
    requires IsEmptyBlock(x)
    ensures Line(Round4, State(0x93aa2577, 0x561e0689, 0xcd85b8cb, 0x1688dc85), x, 12, 3, 10, 1, 52) ==
            State(0x5625a114, 0x1e77fa61, 0x392ad0d0, 0x3450f42b)
  {
    hide Operation;
    EmptyOperations14();
  }

  lemma EmptyLine15(x: Block)
    requires IsEmptyBlock(x)
    ensures Line(Round4, State(0x5625a114, 0x1e77fa61, 0x392ad0d0, 0x3450f42b), x, 8, 15, 6, 13, 56) ==
            State(0x474a9c8c, 0x30130182, 0x36594b14, 0xdfce00bc)
  {
    hide Operation;
    EmptyOperations15();
  }

  lemma EmptyLine16(x: Block)
    requires IsEmptyBlock(x)
    ensures Line(Round4, State(0x474a9c8c, 0x30130182, 0x36594b14, 0xdfce00bc), x, 4, 11, 2, 9, 60) ==
            State(0x7246fad3, 0x14e45506, 0xff4ea3eb, 0x6e10a476)
  {
    hide Operation;
    EmptyOperations16();
  }

  lemma EmptyRound1(x: Block)
    requires IsEmptyBlock(x)
    ensures RfcRound1(State(0x67452301, 0xefcdab89, 0x98badcfe, 0x10325476), x) ==
            State(0xf56c7cf1, 0xd6819c6a, 0x5aa53f75, 0x374943a7)
  {
    hide Line;
    EmptyLine1(x);
    EmptyLine2(x);
    EmptyLine3(x);
    EmptyLine4(x);
  }

  lemma EmptyRound2(x: Block)
    requires IsEmptyBlock(x)
    ensures RfcRound2(State(0xf56c7cf1, 0xd6819c6a, 0x5aa53f75, 0x374943a7), x) ==
            State(0x13707036, 0xa2205f1f, 0x1c31c384, 0xae7813db)
  {
    hide Line;
    EmptyLine5(x);
    EmptyLine6(x);
    EmptyLine7(x);
    EmptyLine8(x);
  }

  lemma EmptyRound3(x: Block)
    requires IsEmptyBlock(x)
    ensures RfcRound3(State(0x13707036, 0xa2205f1f, 0x1c31c384, 0xae7813db), x) ==
            State(0x3f55edfd, 0xca7d2dbd, 0x68d84ea2, 0x22a31f54)
  {
    hide Line;
    EmptyLine9(x);
    EmptyLine10(x);
    EmptyLine11(x);
    EmptyLine12(x);
  }

  lemma EmptyRound4(x: Block)
    requires IsEmptyBlock(x)
    ensures RfcRound4(State(0x3f55edfd, 0xca7d2dbd, 0x68d84ea2, 0x22a31f54), x) ==
            State(0x7246fad3, 0x14e45506, 0xff4ea3eb, 0x6e10a476)
  {
    hide Line;
    EmptyLine13(x);
    EmptyLine14(x);
    EmptyLine15(x);
    EmptyLine16(x);
  }

  lemma EmptyCompresses(x: Block)
    requires IsEmptyBlock(x)
    ensures RfcCompress(INITIAL, x) == State(0xd98c1dd4, 0x04b2008f, 0x980980e9, 0x7e42f8ec)
  {
    hide RfcRound1, RfcRound2, RfcRound3, RfcRound4;
    EmptyRound1(x);
    EmptyRound2(x);
    EmptyRound3(x);
    EmptyRound4(x);
  }

  lemma {:induction false} ZerosAreZero(n: nat, i: nat)
    requires i < n
    ensures Zeros(n)[i] == 0
  {
    if i < n - 1 {
      ZerosAreZero(n - 1, i);
    }
  }

  lemma NoLength(i: nat)
    ensures LengthByte(0, i) == 0
  {
    hide LongByte, BitLength;
    NoBits();
    BytesOfZero(i);
  }

  lemma NoBits()
    ensures BitLength(0) == 0
  {
    var n: int := (8 * 0) % 0x1_0000_0000_0000_0000;
    assert n == 0;
    assert n as bv64 == 0;
  }

  lemma BytesOfZero(i: nat)
    ensures LongByte(0, i) == 0
  {
  }

  lemma EmptyPadding(i: nat)
    requires 1 <= i < 64
    ensures |RfcPad([])| == 64 && RfcPad([])[0] == 0x80 && RfcPad([])[i] == 0
  {
    hide LengthByte, Zeros, LengthBytes;
    if i < 56 {
      ZerosAreZero(55, i - 1);
    } else {
      LengthByteAt(0, 8, i - 56);
      NoLength(i - 56);
    }
  }

  lemma EmptyIsOneBlock()
    ensures var blocks := Blocks(RfcPad([])); |blocks| == 1 && IsEmptyBlock(blocks[0])
  {
    hide LengthByte, Zeros, LengthBytes, RfcPad, DecodeWord;
    var p := RfcPad([]);
    EmptyPadding(1);
    forall i | 1 <= i < 64 ensures p[i] == 0 {
      EmptyPadding(i);
    }
    assert p[..64] == p && p[64..] == [];
    DecodeEmptyWords();
  }

  lemma DecodeEmptyWords()
    ensures DecodeWord(0x80, 0, 0, 0) == 0x80 && DecodeWord(0, 0, 0, 0) == 0
  {
  }

  /** MD5 ("") = d41d8cd98f00b204e9800998ecf8427e */
  lemma EmptyMessage()
    ensures RfcHex([]) == "d41d8cd98f00b204e9800998ecf8427e"
  {
    hide RfcCompress, Blocks, RfcPad, HexWord, IsEmptyBlock;
    EmptyIsOneBlock();
    var blocks := Blocks(RfcPad([]));
    EmptyCompresses(blocks[0]);
    EmptyState(blocks);
    EmptyWords();
  }

  lemma EmptyState(blocks: seq<Block>)
    requires |blocks| == 1
    ensures FoldLeft(RfcCompress, INITIAL, blocks) == RfcCompress(INITIAL, blocks[0])
  {
    hide RfcCompress;
  }

  lemma EmptyWords()
    ensures HexWord(0xd98c1dd4) == "d41d8cd9" && HexWord(0x04b2008f) == "8f00b204"
    ensures HexWord(0x980980e9) == "e9800998" && HexWord(0x7e42f8ec) == "ecf8427e"
  {
    hide HexWord;
    FirstEmptyWords();
    LastEmptyWords();
  }

  lemma FirstEmptyWords()
    ensures HexWord(0xd98c1dd4) == "d41d8cd9" && HexWord(0x04b2008f) == "8f00b204"
  {
  }

  lemma LastEmptyWords()
    ensures HexWord(0x980980e9) == "e9800998" && HexWord(0x7e42f8ec) == "ecf8427e"
  {
  }
}

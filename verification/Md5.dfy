/**
 MD5 twice: as the register-shuffling loop of src/Md5.cpp, and as the four
 explicit rounds of RFC 1321, sections 3.1 to 3.5. `RfcDigest` is the
 reference; `Md5Hex` is the program and is proved equal to it.
 */
module Md5 {
  type Word = bv32
  type Byte = bv8
  type Block = x: seq<Word> | |x| == 16 witness seq(16, _ => 0)

  datatype State = State(a: Word, b: Word, c: Word, d: Word)

  const INITIAL := State(0x67452301, 0xefcdab89, 0x98badcfe, 0x10325476)

  type Amount = n: Word | n <= 32

  const SHIFTS: seq<Amount> := [
    7, 12, 17, 22, 7, 12, 17, 22, 7, 12, 17, 22, 7, 12, 17, 22
  ] + [
    5, 9, 14, 20, 5, 9, 14, 20, 5, 9, 14, 20, 5, 9, 14, 20
  ] + [
    4, 11, 16, 23, 4, 11, 16, 23, 4, 11, 16, 23, 4, 11, 16, 23
  ] + [
    6, 10, 15, 21, 6, 10, 15, 21, 6, 10, 15, 21, 6, 10, 15, 21
  ]

  // The sine table T[1..64] of RFC 1321, section 3.4, sixteen entries for each round.
  const SINES_1: seq<Word> := [
    0xd76aa478, 0xe8c7b756, 0x242070db, 0xc1bdceee, 0xf57c0faf, 0x4787c62a, 0xa8304613, 0xfd469501,
    0x698098d8, 0x8b44f7af, 0xffff5bb1, 0x895cd7be, 0x6b901122, 0xfd987193, 0xa679438e, 0x49b40821
  ]

  const SINES_2: seq<Word> := [
    0xf61e2562, 0xc040b340, 0x265e5a51, 0xe9b6c7aa, 0xd62f105d, 0x02441453, 0xd8a1e681, 0xe7d3fbc8,
    0x21e1cde6, 0xc33707d6, 0xf4d50d87, 0x455a14ed, 0xa9e3e905, 0xfcefa3f8, 0x676f02d9, 0x8d2a4c8a
  ]

  const SINES_3: seq<Word> := [
    0xfffa3942, 0x8771f681, 0x6d9d6122, 0xfde5380c, 0xa4beea44, 0x4bdecfa9, 0xf6bb4b60, 0xbebfbc70,
    0x289b7ec6, 0xeaa127fa, 0xd4ef3085, 0x04881d05, 0xd9d4d039, 0xe6db99e5, 0x1fa27cf8, 0xc4ac5665
  ]

  const SINES_4: seq<Word> := [
    0xf4292244, 0x432aff97, 0xab9423a7, 0xfc93a039, 0x655b59c3, 0x8f0ccc92, 0xffeff47d, 0x85845dd1,
    0x6fa87e4f, 0xfe2ce6e0, 0xa3014314, 0x4e0811a1, 0xf7537e82, 0xbd3af235, 0x2ad7d2bb, 0xeb86d391
  ]


  // Addition of words is modulo 2^32.
  function Sum(u: Word, v: Word): Word {
    u + v
  }

  function Sum4(u: Word, v: Word, w: Word, x: Word): Word {
    u + v + w + x
  }

  function LeftRotate(value: Word, bits: Amount): Word {
    (value << bits) | (value >> (32 - bits))
  }

  // ---------------------------------------------------------------------
  // The program's inner loop, one pass at a time.

  function MixOf(i: nat, b: Word, c: Word, d: Word): Word {
    if i < 16 then (b & c) | ((!b) & d)
    else if i < 32 then (d & b) | ((!d) & c)
    else if i < 48 then b ^ c ^ d
    else c ^ (b | (!d))
  }

  function IndexOf(i: nat): (g: nat)
    requires i < 64
    ensures g < 16
  {
    if i < 16 then i
    else if i < 32 then (5 * i + 1) % 16
    else if i < 48 then (3 * i + 5) % 16
    else (7 * i) % 16
  }

  function Step(s: State, x: Block, i: nat): State
    requires i < 64
  {
    var f := MixOf(i, s.b, s.c, s.d);
    State(s.d, Sum(s.b, LeftRotate(Sum4(s.a, f, ConstantOf(i), x[IndexOf(i)]), ShiftOf(i))), s.b, s.c)
  }

  function ShiftOf(i: nat): Amount
    requires i < 64
  {
    SHIFTS[i]
  }

  function ConstantOf(i: nat): Word
    requires i < 64
  {
    if i < 16 then SINES_1[i]
    else if i < 32 then SINES_2[i - 16]
    else if i < 48 then SINES_3[i - 32]
    else SINES_4[i - 48]
  }

  function Steps(s: State, x: Block, n: nat): State
    requires n <= 64
  {
    if n == 0 then s else Step(Steps(s, x, n - 1), x, n - 1)
  }

  // ---------------------------------------------------------------------
  // RFC 1321, section 3.4.

  datatype Round = Round1 | Round2 | Round3 | Round4

  function Auxiliary(r: Round, x: Word, y: Word, z: Word): Word {
    match r
    case Round1 => (x & y) | ((!x) & z)
    case Round2 => (x & z) | (y & (!z))
    case Round3 => x ^ y ^ z
    case Round4 => y ^ (x | (!z))
  }

  // The rotation of operation j of a line, x <<< s.
  function Turn(r: Round, j: nat, x: Word): Word {
    match (r, j)
    case (Round1, 0) => x.RotateLeft(7)
    case (Round1, 1) => x.RotateLeft(12)
    case (Round1, 2) => x.RotateLeft(17)
    case (Round1, _) => x.RotateLeft(22)
    case (Round2, 0) => x.RotateLeft(5)
    case (Round2, 1) => x.RotateLeft(9)
    case (Round2, 2) => x.RotateLeft(14)
    case (Round2, _) => x.RotateLeft(20)
    case (Round3, 0) => x.RotateLeft(4)
    case (Round3, 1) => x.RotateLeft(11)
    case (Round3, 2) => x.RotateLeft(16)
    case (Round3, _) => x.RotateLeft(23)
    case (Round4, 0) => x.RotateLeft(6)
    case (Round4, 1) => x.RotateLeft(10)
    case (Round4, 2) => x.RotateLeft(15)
    case (Round4, _) => x.RotateLeft(21)
  }

  function Plus(u: Word, v: Word): Word {
    u + v
  }

  function PlusAll(u: Word, v: Word, w: Word, x: Word): Word {
    u + v + w + x
  }

  // [abcd k s i]: a = b + ((a + f(b,c,d) + X[k] + T[i]) <<< s), as operation j of a line.
  function Operation(r: Round, j: nat, a: Word, b: Word, c: Word, d: Word, xk: Word, t: Word): Word {
    Plus(b, Turn(r, j, PlusAll(a, Auxiliary(r, b, c, d), xk, t)))
  }

  // One printed line of a round: [ABCD k1 s1 t+1] [DABC k2 s2 t+2] [CDAB k3 s3 t+3] [BCDA k4 s4 t+4]
  function Line(r: Round, s: State, x: Block, k1: nat, k2: nat, k3: nat, k4: nat, t: nat): State
    requires k1 < 16 && k2 < 16 && k3 < 16 && k4 < 16 && t + 3 < 64
  {
    var a := Operation(r, 0, s.a, s.b, s.c, s.d, x[k1], ConstantOf(t));
    var d := Operation(r, 1, s.d, a, s.b, s.c, x[k2], ConstantOf(t + 1));
    var c := Operation(r, 2, s.c, d, a, s.b, x[k3], ConstantOf(t + 2));
    var b := Operation(r, 3, s.b, c, d, a, x[k4], ConstantOf(t + 3));
    State(a, b, c, d)
  }

  function RfcRound1(s: State, x: Block): State {
    var s1 := Line(Round1, s, x, 0, 1, 2, 3, 0);
    var s2 := Line(Round1, s1, x, 4, 5, 6, 7, 4);
    var s3 := Line(Round1, s2, x, 8, 9, 10, 11, 8);
    Line(Round1, s3, x, 12, 13, 14, 15, 12)
  }

  function RfcRound2(s: State, x: Block): State {
    var s1 := Line(Round2, s, x, 1, 6, 11, 0, 16);
    var s2 := Line(Round2, s1, x, 5, 10, 15, 4, 20);
    var s3 := Line(Round2, s2, x, 9, 14, 3, 8, 24);
    Line(Round2, s3, x, 13, 2, 7, 12, 28)
  }

  function RfcRound3(s: State, x: Block): State {
    var s1 := Line(Round3, s, x, 5, 8, 11, 14, 32);
    var s2 := Line(Round3, s1, x, 1, 4, 7, 10, 36);
    var s3 := Line(Round3, s2, x, 13, 0, 3, 6, 40);
    Line(Round3, s3, x, 9, 12, 15, 2, 44)
  }

  function RfcRound4(s: State, x: Block): State {
    var s1 := Line(Round4, s, x, 0, 7, 14, 5, 48);
    var s2 := Line(Round4, s1, x, 12, 3, 10, 1, 52);
    var s3 := Line(Round4, s2, x, 8, 15, 6, 13, 56);
    Line(Round4, s3, x, 4, 11, 2, 9, 60)
  }

  function AddStates(s: State, u: State): State {
    State(s.a + u.a, s.b + u.b, s.c + u.c, s.d + u.d)
  }

  function RfcCompress(s: State, x: Block): State {
    AddStates(s, RfcRound4(RfcRound3(RfcRound2(RfcRound1(s, x), x), x), x))
  }

  // ---------------------------------------------------------------------
  // The shuffling loop computes the four rounds.

  function RoundOf(i: nat): Round {
    if i < 16 then Round1 else if i < 32 then Round2 else if i < 48 then Round3 else Round4
  }

  lemma MixIsAuxiliary(i: nat, b: Word, c: Word, d: Word)
    ensures MixOf(i, b, c, d) == Auxiliary(RoundOf(i), b, c, d)
  {
  }

  // The program adds the constant before the word, the RFC after it.
  lemma SumsAgree(u: Word, v: Word, w: Word, x: Word)
    ensures Sum4(u, v, w, x) == PlusAll(u, v, x, w)
  {
  }

  lemma SumIsPlus(u: Word, v: Word)
    ensures Sum(u, v) == Plus(u, v)
  {
  }

  // The amounts of a round's four columns.
  function AmountOf(r: Round, j: nat): Amount {
    match (r, j)
    case (Round1, 0) => 7
    case (Round1, 1) => 12
    case (Round1, 2) => 17
    case (Round1, _) => 22
    case (Round2, 0) => 5
    case (Round2, 1) => 9
    case (Round2, 2) => 14
    case (Round2, _) => 20
    case (Round3, 0) => 4
    case (Round3, 1) => 11
    case (Round3, 2) => 16
    case (Round3, _) => 23
    case (Round4, 0) => 6
    case (Round4, 1) => 10
    case (Round4, 2) => 15
    case (Round4, _) => 21
  }

  lemma ShiftIsAmount(i: nat)
    requires i < 64
    ensures ShiftOf(i) == AmountOf(RoundOf(i), i % 4)
  {
    hide ShiftOf, AmountOf;
    if i < 32 {
      EarlyShiftIsAmount(i);
    } else {
      LateShiftIsAmount(i);
    }
  }

  lemma EarlyShiftIsAmount(i: nat)
    requires i < 32
    ensures ShiftOf(i) == AmountOf(RoundOf(i), i % 4)
  {
    var q, j := i / 4, i % 4;
    assert i == 4 * q + j;
    assert q == 0 || q == 1 || q == 2 || q == 3 || q == 4 || q == 5 || q == 6 || q == 7;
    assert j == 0 || j == 1 || j == 2 || j == 3;
  }

  lemma LateShiftIsAmount(i: nat)
    requires 32 <= i < 64
    ensures ShiftOf(i) == AmountOf(RoundOf(i), i % 4)
  {
    var q, j := i / 4, i % 4;
    assert i == 4 * q + j;
    assert q == 8 || q == 9 || q == 10 || q == 11 || q == 12 || q == 13 || q == 14 || q == 15;
    assert j == 0 || j == 1 || j == 2 || j == 3;
  }

  lemma AmountTurns(r: Round, j: nat, v: Word)
    ensures LeftRotate(v, AmountOf(r, j)) == Turn(r, j, v)
  {
  }

  /** Shifting left and right by the table's amounts rotates as each operation of the RFC does. */
  lemma ShiftsRotate(v: Word, i: nat)
    requires i < 64
    ensures LeftRotate(v, ShiftOf(i)) == Turn(RoundOf(i), i % 4, v)
  {
    hide LeftRotate, Turn, ShiftOf, AmountOf;
    ShiftIsAmount(i);
    AmountTurns(RoundOf(i), i % 4, v);
  }

  lemma StepIsOperation(s: State, x: Block, i: nat)
    requires i < 64
    ensures Step(s, x, i) ==
            State(s.d, Operation(RoundOf(i), i % 4, s.a, s.b, s.c, s.d, x[IndexOf(i)], ConstantOf(i)), s.b, s.c)
  {
    hide Sum, Sum4, Plus, PlusAll, LeftRotate, MixOf, Auxiliary, ShiftOf, IndexOf, ConstantOf, Turn;
    var f := MixOf(i, s.b, s.c, s.d);
    var sum := Sum4(s.a, f, ConstantOf(i), x[IndexOf(i)]);
    MixIsAuxiliary(i, s.b, s.c, s.d);
    ShiftsRotate(sum, i);
    SumsAgree(s.a, f, ConstantOf(i), x[IndexOf(i)]);
    SumIsPlus(s.b, LeftRotate(sum, ShiftOf(i)));
  }

  // Each group of four passes brings every register back to its place.
  lemma FourStepsAreALine(r: Round, s: State, x: Block, i: nat, k1: nat, k2: nat, k3: nat, k4: nat)
    requires i < 61 && i % 4 == 0 && r == RoundOf(i)
    requires k1 == IndexOf(i) && k2 == IndexOf(i + 1) && k3 == IndexOf(i + 2) && k4 == IndexOf(i + 3)
    ensures Steps(s, x, i + 4) == Line(r, Steps(s, x, i), x, k1, k2, k3, k4, i)
  {
    hide LeftRotate, IndexOf, ConstantOf, Operation, Step, Steps, ShiftOf;
    var s0 := Steps(s, x, i);
    var s1, s2, s3, s4 := Step(s0, x, i), Step(Step(s0, x, i), x, i + 1),
                          Step(Step(Step(s0, x, i), x, i + 1), x, i + 2), Steps(s, x, i + 4);
    assert s4 == Step(s3, x, i + 3) by { StepsUnfold(s, x, i); }
    StepIsOperation(s0, x, i);
    StepIsOperation(s1, x, i + 1);
    StepIsOperation(s2, x, i + 2);
    StepIsOperation(s3, x, i + 3);
    assert (i + 1) % 4 == 1 && (i + 2) % 4 == 2 && (i + 3) % 4 == 3;
    assert RoundOf(i + 1) == r && RoundOf(i + 2) == r && RoundOf(i + 3) == r;
  }

  lemma StepsUnfold(s: State, x: Block, i: nat)
    requires i < 61
    ensures Steps(s, x, i + 4) == Step(Step(Step(Step(Steps(s, x, i), x, i), x, i + 1), x, i + 2), x, i + 3)
  {
    hide Step;
    assert Steps(s, x, i + 1) == Step(Steps(s, x, i), x, i);
    assert Steps(s, x, i + 2) == Step(Steps(s, x, i + 1), x, i + 1);
    assert Steps(s, x, i + 3) == Step(Steps(s, x, i + 2), x, i + 2);
  }

  lemma LoopIsRound1(s: State, x: Block)
    ensures Steps(s, x, 16) == RfcRound1(Steps(s, x, 0), x)
  {
    hide Line, Steps;
    FourStepsAreALine(Round1, s, x, 0, 0, 1, 2, 3);
    FourStepsAreALine(Round1, s, x, 4, 4, 5, 6, 7);
    FourStepsAreALine(Round1, s, x, 8, 8, 9, 10, 11);
    FourStepsAreALine(Round1, s, x, 12, 12, 13, 14, 15);
  }

  lemma LoopIsRound2(s: State, x: Block)
    ensures Steps(s, x, 32) == RfcRound2(Steps(s, x, 16), x)
  {
    hide Line, Steps;
    FourStepsAreALine(Round2, s, x, 16, 1, 6, 11, 0);
    FourStepsAreALine(Round2, s, x, 20, 5, 10, 15, 4);
    FourStepsAreALine(Round2, s, x, 24, 9, 14, 3, 8);
    FourStepsAreALine(Round2, s, x, 28, 13, 2, 7, 12);
  }

  lemma LoopIsRound3(s: State, x: Block)
    ensures Steps(s, x, 48) == RfcRound3(Steps(s, x, 32), x)
  {
    hide Line, Steps;
    FourStepsAreALine(Round3, s, x, 32, 5, 8, 11, 14);
    FourStepsAreALine(Round3, s, x, 36, 1, 4, 7, 10);
    FourStepsAreALine(Round3, s, x, 40, 13, 0, 3, 6);
    FourStepsAreALine(Round3, s, x, 44, 9, 12, 15, 2);
  }

  lemma LoopIsRound4(s: State, x: Block)
    ensures Steps(s, x, 64) == RfcRound4(Steps(s, x, 48), x)
  {
    hide Line, Steps;
    FourStepsAreALine(Round4, s, x, 48, 0, 7, 14, 5);
    FourStepsAreALine(Round4, s, x, 52, 12, 3, 10, 1);
    FourStepsAreALine(Round4, s, x, 56, 8, 15, 6, 13);
    FourStepsAreALine(Round4, s, x, 60, 4, 11, 2, 9);
  }

  lemma LoopIsRfcRounds(s: State, x: Block)
    ensures AddStates(s, Steps(s, x, 64)) == RfcCompress(s, x)
  {
    hide Step, AddStates, RfcRound1, RfcRound2, RfcRound3, RfcRound4;
    LoopIsRound1(s, x);
    LoopIsRound2(s, x);
    LoopIsRound3(s, x);
    LoopIsRound4(s, x);
    assert Steps(s, x, 0) == s;
  }

  // ---------------------------------------------------------------------
  // Sections 3.1 and 3.2: padding.

  function Zeros(n: nat): (z: seq<Byte>)
    ensures |z| == n
  {
    if n == 0 then [] else Zeros(n - 1) + [0]
  }

  function BitLength(n: nat): bv64 {
    ((8 * n) % 0x1_0000_0000_0000_0000) as bv64
  }

  // Byte i of a 64-bit number, low-order byte first.
  function LongByte(v: bv64, i: nat): Byte {
    match i
    case 0 => (v & 0xff) as Byte
    case 1 => ((v >> 8) & 0xff) as Byte
    case 2 => ((v >> 16) & 0xff) as Byte
    case 3 => ((v >> 24) & 0xff) as Byte
    case 4 => ((v >> 32) & 0xff) as Byte
    case 5 => ((v >> 40) & 0xff) as Byte
    case 6 => ((v >> 48) & 0xff) as Byte
    case _ => ((v >> 56) & 0xff) as Byte
  }

  function LengthByte(n: nat, i: nat): Byte {
    LongByte(BitLength(n), i)
  }

  function LengthBytes(n: nat, k: nat): (b: seq<Byte>)
    ensures |b| == k
  {
    if k == 0 then [] else LengthBytes(n, k - 1) + [LengthByte(n, k - 1)]
  }

  // The fewest zero bytes that bring the length to 56 modulo 64.
  function ZeroCount(n: nat): (z: nat)
    ensures z < 64 && (n + 1 + z) % 64 == 56
  {
    (55 - n) % 64
  }

  lemma WholeBlocks(n: nat)
    requires n % 64 == 56
    ensures (n + 8) % 64 == 0
  {
  }

  function RfcPad(m: seq<Byte>): (p: seq<Byte>)
    ensures |p| % 64 == 0
  {
    WholeBlocks(|m| + 1 + ZeroCount(|m|));
    m + [0x80] + Zeros(ZeroCount(|m|)) + LengthBytes(|m|, 8)
  }

  function StripZeros(s: seq<Byte>): seq<Byte> {
    if |s| > 0 && s[|s| - 1] == 0 then StripZeros(s[..|s| - 1]) else s
  }

  // Drop the bit count, the zeros, and the marker byte.
  function Unpad(p: seq<Byte>): seq<Byte> {
    var body := StripZeros(if |p| >= 8 then p[..|p| - 8] else []);
    if |body| > 0 then body[..|body| - 1] else []
  }

  lemma {:induction false} StripZerosUndoesZeros(s: seq<Byte>, n: nat)
    requires |s| > 0 && s[|s| - 1] != 0
    ensures StripZeros(s + Zeros(n)) == s
  {
    if n == 0 {
      assert s + Zeros(0) == s;
    } else {
      assert (s + Zeros(n))[..|s| + n - 1] == s + Zeros(n - 1);
      StripZerosUndoesZeros(s, n - 1);
    }
  }

  /** Padding can be undone, whatever the message. */
  lemma PaddingIsUndone(m: seq<Byte>)
    ensures Unpad(RfcPad(m)) == m
  {
    var z := ZeroCount(|m|);
    assert RfcPad(m)[..|RfcPad(m)| - 8] == (m + [0x80]) + Zeros(z);
    StripZerosUndoesZeros(m + [0x80], z);
  }

  // A 64-bit number from its bytes, low-order byte first.
  function LongOf(b: seq<Byte>): bv64
    requires |b| == 8
  {
    (b[0] as bv64) | ((b[1] as bv64) << 8) | ((b[2] as bv64) << 16) | ((b[3] as bv64) << 24) |
    ((b[4] as bv64) << 32) | ((b[5] as bv64) << 40) | ((b[6] as bv64) << 48) | ((b[7] as bv64) << 56)
  }

  lemma BytesRebuildLong(v: bv64)
    ensures (LongByte(v, 0) as bv64) | ((LongByte(v, 1) as bv64) << 8) | ((LongByte(v, 2) as bv64) << 16) |
            ((LongByte(v, 3) as bv64) << 24) | ((LongByte(v, 4) as bv64) << 32) | ((LongByte(v, 5) as bv64) << 40) |
            ((LongByte(v, 6) as bv64) << 48) | ((LongByte(v, 7) as bv64) << 56) == v
  {
  }

  lemma {:induction false} LengthByteAt(n: nat, k: nat, i: nat)
    requires i < k
    ensures LengthBytes(n, k)[i] == LengthByte(n, i)
  {
    hide LengthByte;
    if i < k - 1 {
      LengthByteAt(n, k - 1, i);
    }
  }

  /** The last eight bytes give the length in bits, modulo 2^64. */
  lemma LengthIsRecorded(m: seq<Byte>)
    ensures var p := RfcPad(m);
            |p| >= 8 && LongOf(p[|p| - 8..]) == ((8 * |m|) % 0x1_0000_0000_0000_0000) as bv64
  {
    hide LongByte, Zeros, LengthBytes;
    var b := LengthBytes(|m|, 8);
    assert RfcPad(m)[|RfcPad(m)| - 8..] == b;
    forall i | 0 <= i < 8 ensures b[i] == LongByte(BitLength(|m|), i) {
      LengthByteAt(|m|, 8, i);
    }
    BytesRebuildLong(BitLength(|m|));
  }

  // ---------------------------------------------------------------------
  // Sections 3.3 to 3.5: the fold over blocks and the output.

  function DecodeWord(b0: Byte, b1: Byte, b2: Byte, b3: Byte): Word {
    (b0 as Word) | ((b1 as Word) << 8) | ((b2 as Word) << 16) | ((b3 as Word) << 24)
  }

  /** Bytes are read low-order first: an output word written and read again is itself, and so are four bytes. */
  lemma WordsAreLowByteFirst(b0: Byte, b1: Byte, b2: Byte, b3: Byte)
    ensures var w := DecodeWord(b0, b1, b2, b3);
            [ByteOf(w, 0), ByteOf(w, 1), ByteOf(w, 2), ByteOf(w, 3)] == [b0, b1, b2, b3]
  {
  }

  function WordAt(data: seq<Byte>, i: nat): Word
    requires i + 4 <= |data|
  {
    DecodeWord(data[i], data[i + 1], data[i + 2], data[i + 3])
  }

  function BlockWords(block: seq<Byte>): Block
    requires |block| == 64
  {
    seq(16, i requires 0 <= i < 16 => WordAt(block, 4 * i))
  }

  /** Word i of a block holds bytes 4i to 4i + 3, the first one lowest. */
  lemma BlockIsDecoded(block: seq<Byte>, i: nat)
    requires |block| == 64 && i < 16
    ensures var w := BlockWords(block)[i];
            [ByteOf(w, 0), ByteOf(w, 1), ByteOf(w, 2), ByteOf(w, 3)] == block[4 * i..4 * i + 4]
  {
    hide DecodeWord, ByteOf;
    WordsAreLowByteFirst(block[4 * i], block[4 * i + 1], block[4 * i + 2], block[4 * i + 3]);
  }

  function Blocks(data: seq<Byte>): seq<Block>
    requires |data| % 64 == 0
  {
    if data == [] then [] else [BlockWords(data[..64])] + Blocks(data[64..])
  }

  function FoldLeft<S, B>(f: (S, B) -> S, s: S, items: seq<B>): S {
    if items == [] then s else FoldLeft(f, f(s, items[0]), items[1..])
  }

  function RfcDigest(m: seq<Byte>): State {
    FoldLeft(RfcCompress, INITIAL, Blocks(RfcPad(m)))
  }

  function ByteOf(w: Word, i: nat): Byte {
    match i
    case 0 => (w & 0xff) as Byte
    case 1 => ((w >> 8) & 0xff) as Byte
    case 2 => ((w >> 16) & 0xff) as Byte
    case _ => ((w >> 24) & 0xff) as Byte
  }

  function HexDigit(x: Byte): (c: char)
    ensures IsLowerHex(c)
  {
    if x == 0 then '0' else if x == 1 then '1' else if x == 2 then '2' else if x == 3 then '3'
    else if x == 4 then '4' else if x == 5 then '5' else if x == 6 then '6' else if x == 7 then '7'
    else if x == 8 then '8' else if x == 9 then '9' else if x == 10 then 'a' else if x == 11 then 'b'
    else if x == 12 then 'c' else if x == 13 then 'd' else if x == 14 then 'e' else 'f'
  }

  predicate IsLowerHex(c: char) {
    '0' <= c <= '9' || 'a' <= c <= 'f'
  }

  function HexByte(b: Byte): string {
    [HexDigit(b >> 4), HexDigit(b & 0x0f)]
  }

  function HexWord(w: Word): string {
    HexByte(ByteOf(w, 0)) + HexByte(ByteOf(w, 1)) + HexByte(ByteOf(w, 2)) + HexByte(ByteOf(w, 3))
  }

  function HexState(s: State): string {
    HexWord(s.a) + HexWord(s.b) + HexWord(s.c) + HexWord(s.d)
  }

  function RfcHex(m: seq<Byte>): string {
    HexState(RfcDigest(m))
  }

  // Reading the text back.

  function DigitValue(c: char): Byte {
    match c
    case '0' => 0 case '1' => 1 case '2' => 2 case '3' => 3
    case '4' => 4 case '5' => 5 case '6' => 6 case '7' => 7
    case '8' => 8 case '9' => 9 case 'a' => 10 case 'b' => 11
    case 'c' => 12 case 'd' => 13 case 'e' => 14 case _ => 15
  }

  function ReadByte(t: string, i: nat): Byte
    requires i + 2 <= |t|
  {
    (DigitValue(t[i]) << 4) | DigitValue(t[i + 1])
  }

  function ReadWord(t: string, i: nat): Word
    requires i + 8 <= |t|
  {
    DecodeWord(ReadByte(t, i), ReadByte(t, i + 2), ReadByte(t, i + 4), ReadByte(t, i + 6))
  }

  function ReadState(t: string): State
    requires |t| == 32
  {
    State(ReadWord(t, 0), ReadWord(t, 8), ReadWord(t, 16), ReadWord(t, 24))
  }

  lemma BytesRebuildWord(w: Word)
    ensures DecodeWord(ByteOf(w, 0), ByteOf(w, 1), ByteOf(w, 2), ByteOf(w, 3)) == w
  {
  }

  lemma DigitsRebuildByte(b: Byte)
    ensures (DigitValue(HexDigit(b >> 4)) << 4) | DigitValue(HexDigit(b & 0x0f)) == b
  {
    DigitsReadBack(b >> 4);
    DigitsReadBack(b & 0x0f);
  }

  lemma DigitsReadBack(x: Byte)
    requires x < 16
    ensures DigitValue(HexDigit(x)) == x
  {
  }

  lemma WordReadsBack(t: string, w: Word, i: nat)
    requires i + 8 <= |t| && t[i..i + 8] == HexWord(w)
    ensures ReadWord(t, i) == w
    ensures forall k :: i <= k < i + 8 ==> IsLowerHex(t[k])
  {
    hide ByteOf, HexDigit, DigitValue, DecodeWord, IsLowerHex, HexByte, ReadByte;
    BytesRebuildWord(w);
    ByteReadsBack(t, ByteOf(w, 0), i) by { HexWordSlices(t, w, i); }
    ByteReadsBack(t, ByteOf(w, 1), i + 2) by { HexWordSlices(t, w, i); }
    ByteReadsBack(t, ByteOf(w, 2), i + 4) by { HexWordSlices(t, w, i); }
    ByteReadsBack(t, ByteOf(w, 3), i + 6) by { HexWordSlices(t, w, i); }
  }

  lemma HexWordSlices(t: string, w: Word, i: nat)
    requires i + 8 <= |t| && t[i..i + 8] == HexWord(w)
    ensures t[i..i + 2] == HexByte(ByteOf(w, 0)) && t[i + 2..i + 4] == HexByte(ByteOf(w, 1))
    ensures t[i + 4..i + 6] == HexByte(ByteOf(w, 2)) && t[i + 6..i + 8] == HexByte(ByteOf(w, 3))
  {
    hide ByteOf, HexDigit;
    var h := t[i..i + 8];
    assert h[0] == t[i] && h[1] == t[i + 1] && h[2] == t[i + 2] && h[3] == t[i + 3];
    assert h[4] == t[i + 4] && h[5] == t[i + 5] && h[6] == t[i + 6] && h[7] == t[i + 7];
  }

  lemma ByteReadsBack(t: string, b: Byte, i: nat)
    requires i + 2 <= |t| && t[i..i + 2] == HexByte(b)
    ensures ReadByte(t, i) == b
    ensures IsLowerHex(t[i]) && IsLowerHex(t[i + 1])
  {
    hide HexDigit, DigitValue, IsLowerHex;
    var h := t[i..i + 2];
    assert t[i] == h[0] && t[i + 1] == h[1];
    DigitsRebuildByte(b);
  }

  /** The output is 32 lower-case hex digits, and they decode to the final state. */
  lemma HexStateReadsBack(s: State)
    ensures var t := HexState(s);
            |t| == 32 && (forall k :: 0 <= k < 32 ==> IsLowerHex(t[k])) && ReadState(t) == s
  {
    hide HexWord, ReadWord, IsLowerHex;
    var t := HexState(s);
    HexWordLength(s.a);
    HexWordLength(s.b);
    HexWordLength(s.c);
    HexWordLength(s.d);
    Quarters(HexWord(s.a), HexWord(s.b), HexWord(s.c), HexWord(s.d));
    WordReadsBack(t, s.a, 0);
    WordReadsBack(t, s.b, 8);
    WordReadsBack(t, s.c, 16);
    WordReadsBack(t, s.d, 24);
  }

  lemma Quarters(a: string, b: string, c: string, d: string)
    requires |a| == 8 && |b| == 8 && |c| == 8 && |d| == 8
    ensures var t := a + b + c + d;
            |t| == 32 && t[0..8] == a && t[8..16] == b && t[16..24] == c && t[24..32] == d
  {
  }

  lemma HexWordLength(w: Word)
    ensures |HexWord(w)| == 8
  {
  }

  // ---------------------------------------------------------------------
  // src/Md5.cpp, `md5Hex`.

  lemma ZerosStopExactly(n: nat, k: nat)
    requires k <= ZeroCount(n)
    ensures (n + 1 + k) % 64 == 56 <==> k == ZeroCount(n)
  {
  }

  method Pad(input: seq<Byte>) returns (data: seq<Byte>)
    ensures data == RfcPad(input)
  {
    data := input + [0x80];
    ghost var k := 0;
    while |data| % 64 != 56
      invariant k <= ZeroCount(|input|) && data == input + [0x80] + Zeros(k)
      decreases ZeroCount(|input|) - k
    {
      ZerosStopExactly(|input|, k);
      data := data + [0];
      k := k + 1;
    }
    ZerosStopExactly(|input|, k);
    ghost var body := data;
    for i := 0 to 8
      invariant data == body + LengthBytes(|input|, i)
    {
      data := data + [LengthByte(|input|, i)];
    }
  }

  method DecodeBlock(data: seq<Byte>, offset: nat) returns (block: Block)
    requires offset + 64 <= |data|
    ensures block == BlockWords(data[offset..offset + 64])
  {
    hide DecodeWord;
    var words: seq<Word> := [];
    ghost var bytes := data[offset..offset + 64];
    for i := 0 to 16
      invariant |words| == i && words == BlockWords(bytes)[..i]
    {
      assert WordAt(data, offset + i * 4) == WordAt(bytes, 4 * i);
      words := words + [WordAt(data, offset + i * 4)];
    }
    block := words;
  }

  method ShuffleBlock(s: State, words: Block) returns (r: State)
    ensures r == RfcCompress(s, words)
  {
    hide MixOf, Sum4, LeftRotate, ShiftOf, ConstantOf, IndexOf, RfcCompress;
    var a, b, c, d := s.a, s.b, s.c, s.d;
    for i := 0 to 64
      invariant State(a, b, c, d) == Steps(s, words, i)
    {
      var f := MixOf(i, b, c, d);
      var g := IndexOf(i);
      var nextD := d;
      d := c;
      c := b;
      b := Sum(b, LeftRotate(Sum4(a, f, ConstantOf(i), words[g]), ShiftOf(i)));
      a := nextD;
    }
    r := AddStates(s, State(a, b, c, d));
    LoopIsRfcRounds(s, words);
  }

  /** The whole program computes the RFC's digest, in hex. */
  method Md5Hex(input: seq<Byte>) returns (out: string)
    ensures out == RfcHex(input)
  {
    hide RfcCompress, BlockWords, HexWord, RfcPad;
    var data := Pad(input);
    var s := INITIAL;
    var offset := 0;
    while offset < |data|
      invariant offset % 64 == 0 && offset <= |data|
      invariant |data| % 64 == 0
      invariant FoldLeft(RfcCompress, s, Blocks(data[offset..])) == RfcDigest(input)
    {
      var words := DecodeBlock(data, offset);
      ghost var rest := Blocks(data[offset..]);
      assert data[offset..][..64] == data[offset..offset + 64] && data[offset..][64..] == data[offset + 64..];
      assert rest[0] == words && rest[1..] == Blocks(data[offset + 64..]);
      s := ShuffleBlock(s, words);
      offset := offset + 64;
    }
    out := HexWord(s.a) + HexWord(s.b) + HexWord(s.c) + HexWord(s.d);
  }
}

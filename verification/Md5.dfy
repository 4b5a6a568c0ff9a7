/** MD5 (RFC 1321): the compression of a block, and the context that takes a message in pieces. */
module Md5 {
  import opened Blocks
  import opened Numbers

  type Word = bv32
  datatype Four<W> = Quad(a: W, b: W, c: W, d: W)
  type Quad = Four<Word>

  const INIT: Quad := Quad(0x67452301, 0xefcdab89, 0x98badcfe, 0x10325476)
  const U29 := 0x2000_0000
  const U32 := 0x1_0000_0000
  const U61 := 0x2000_0000_0000_0000

  // ----- the round functions

  function F(x: Word, y: Word, z: Word): Word { z ^ (x & (y ^ z)) }
  function G(x: Word, y: Word, z: Word): Word { y ^ (z & (x ^ y)) }
  function H(x: Word, y: Word, z: Word): Word { x ^ y ^ z }
  function I(x: Word, y: Word, z: Word): Word { y ^ (x | !z) }

  /** F and G as section 3.4 of RFC 1321 defines them. */
  function RfcF(x: Word, y: Word, z: Word): Word { (x & y) | (!x & z) }
  function RfcG(x: Word, y: Word, z: Word): Word { (x & z) | (y & !z) }

  lemma BitsOfF(x: Word, y: Word, z: Word)
    ensures z ^ (x & (y ^ z)) == (x & y) | (!x & z)
  {
  }

  lemma BitsOfG(x: Word, y: Word, z: Word)
    ensures y ^ (z & (x ^ y)) == (x & z) | (y & !z)
  {
  }

  lemma FastF(x: Word, y: Word, z: Word)
    ensures F(x, y, z) == RfcF(x, y, z)
  {
    BitsOfF(x, y, z);
  }

  lemma FastG(x: Word, y: Word, z: Word)
    ensures G(x, y, z) == RfcG(x, y, z)
  {
    BitsOfG(x, y, z);
  }

  /** Bit by bit, for any set m of places: where x is set F takes y and elsewhere z; where z is set G takes x and
      elsewhere y; where x and y agree H takes z and elsewhere turns z over; where x is set or z is not I turns y
      over and elsewhere takes y. */
  lemma BitByBit(x: Word, y: Word, z: Word, m: Word)
    ensures (x & m == m ==> F(x, y, z) & m == y & m) && (x & m == 0 ==> F(x, y, z) & m == z & m)
    ensures (z & m == m ==> G(x, y, z) & m == x & m) && (z & m == 0 ==> G(x, y, z) & m == y & m)
    ensures (x & m == y & m ==> H(x, y, z) & m == z & m) && (x & m == !y & m ==> H(x, y, z) & m == !z & m)
    ensures x & m == m || z & m == 0 ==> I(x, y, z) & m == !y & m
    ensures x & m == 0 && z & m == m ==> I(x, y, z) & m == y & m
  {
    hide F, G, H, I;
    if x & m == m { WhereF(x, y, z, m); }
    if x & m == 0 { ElseF(x, y, z, m); }
    if z & m == m { WhereG(x, y, z, m); }
    if z & m == 0 { ElseG(x, y, z, m); }
    if x & m == y & m { WhereH(x, y, z, m); }
    if x & m == !y & m { ElseH(x, y, z, m); }
    if x & m == m { WhereI(x, y, z, m); }
    if z & m == 0 { WhereNotI(x, y, z, m); }
    if x & m == 0 && z & m == m { ElseI(x, y, z, m); }
  }

  lemma WhereF(x: Word, y: Word, z: Word, m: Word)
    requires x & m == m
    ensures F(x, y, z) & m == y & m
  {
  }

  lemma ElseF(x: Word, y: Word, z: Word, m: Word)
    requires x & m == 0
    ensures F(x, y, z) & m == z & m
  {
  }

  lemma WhereG(x: Word, y: Word, z: Word, m: Word)
    requires z & m == m
    ensures G(x, y, z) & m == x & m
  {
  }

  lemma ElseG(x: Word, y: Word, z: Word, m: Word)
    requires z & m == 0
    ensures G(x, y, z) & m == y & m
  {
  }

  lemma WhereH(x: Word, y: Word, z: Word, m: Word)
    requires x & m == y & m
    ensures H(x, y, z) & m == z & m
  {
  }

  lemma ElseH(x: Word, y: Word, z: Word, m: Word)
    requires x & m == !y & m
    ensures H(x, y, z) & m == !z & m
  {
  }

  lemma WhereI(x: Word, y: Word, z: Word, m: Word)
    requires x & m == m
    ensures I(x, y, z) & m == !y & m
  {
  }

  lemma WhereNotI(x: Word, y: Word, z: Word, m: Word)
    requires z & m == 0
    ensures I(x, y, z) & m == !y & m
  {
  }

  lemma ElseI(x: Word, y: Word, z: Word, m: Word)
    requires x & m == 0 && z & m == m
    ensures I(x, y, z) & m == y & m
  {
  }

  // ----- one block, as the code has it

  /** What a STEP line names: the word of the block, the constant and the shift. */
  type Amount = s: nat | s < 32
  datatype Line = Line(index: nat, t: Word, shift: Amount)

  function LineAt(i: nat): Line {
    if i < 16 then Line1(i) else if i < 32 then Line2(i) else if i < 48 then Line3(i) else Line4(i)
  }

  function Line1(i: nat): Line {
    match i
    case 0 => Line(0, 0xd76aa478, 7)
    case 1 => Line(1, 0xe8c7b756, 12)
    case 2 => Line(2, 0x242070db, 17)
    case 3 => Line(3, 0xc1bdceee, 22)
    case 4 => Line(4, 0xf57c0faf, 7)
    case 5 => Line(5, 0x4787c62a, 12)
    case 6 => Line(6, 0xa8304613, 17)
    case 7 => Line(7, 0xfd469501, 22)
    case 8 => Line(8, 0x698098d8, 7)
    case 9 => Line(9, 0x8b44f7af, 12)
    case 10 => Line(10, 0xffff5bb1, 17)
    case 11 => Line(11, 0x895cd7be, 22)
    case 12 => Line(12, 0x6b901122, 7)
    case 13 => Line(13, 0xfd987193, 12)
    case 14 => Line(14, 0xa679438e, 17)
    case _ => Line(15, 0x49b40821, 22)
  }

  function Line2(i: nat): Line {
    match i
    case 16 => Line(1, 0xf61e2562, 5)
    case 17 => Line(6, 0xc040b340, 9)
    case 18 => Line(11, 0x265e5a51, 14)
    case 19 => Line(0, 0xe9b6c7aa, 20)
    case 20 => Line(5, 0xd62f105d, 5)
    case 21 => Line(10, 0x02441453, 9)
    case 22 => Line(15, 0xd8a1e681, 14)
    case 23 => Line(4, 0xe7d3fbc8, 20)
    case 24 => Line(9, 0x21e1cde6, 5)
    case 25 => Line(14, 0xc33707d6, 9)
    case 26 => Line(3, 0xf4d50d87, 14)
    case 27 => Line(8, 0x455a14ed, 20)
    case 28 => Line(13, 0xa9e3e905, 5)
    case 29 => Line(2, 0xfcefa3f8, 9)
    case 30 => Line(7, 0x676f02d9, 14)
    case _ => Line(12, 0x8d2a4c8a, 20)
  }

  function Line3(i: nat): Line {
    match i
    case 32 => Line(5, 0xfffa3942, 4)
    case 33 => Line(8, 0x8771f681, 11)
    case 34 => Line(11, 0x6d9d6122, 16)
    case 35 => Line(14, 0xfde5380c, 23)
    case 36 => Line(1, 0xa4beea44, 4)
    case 37 => Line(4, 0x4bdecfa9, 11)
    case 38 => Line(7, 0xf6bb4b60, 16)
    case 39 => Line(10, 0xbebfbc70, 23)
    case 40 => Line(13, 0x289b7ec6, 4)
    case 41 => Line(0, 0xeaa127fa, 11)
    case 42 => Line(3, 0xd4ef3085, 16)
    case 43 => Line(6, 0x04881d05, 23)
    case 44 => Line(9, 0xd9d4d039, 4)
    case 45 => Line(12, 0xe6db99e5, 11)
    case 46 => Line(15, 0x1fa27cf8, 16)
    case _ => Line(2, 0xc4ac5665, 23)
  }

  function Line4(i: nat): Line {
    match i
    case 48 => Line(0, 0xf4292244, 6)
    case 49 => Line(7, 0x432aff97, 10)
    case 50 => Line(14, 0xab9423a7, 15)
    case 51 => Line(5, 0xfc93a039, 21)
    case 52 => Line(12, 0x655b59c3, 6)
    case 53 => Line(3, 0x8f0ccc92, 10)
    case 54 => Line(10, 0xffeff47d, 15)
    case 55 => Line(1, 0x85845dd1, 21)
    case 56 => Line(8, 0x6fa87e4f, 6)
    case 57 => Line(15, 0xfe2ce6e0, 10)
    case 58 => Line(6, 0xa3014314, 15)
    case 59 => Line(13, 0x4e0811a1, 21)
    case 60 => Line(4, 0xf7537e82, 6)
    case 61 => Line(11, 0xbd3af235, 10)
    case 62 => Line(2, 0x2ad7d2bb, 15)
    case _ => Line(9, 0xeb86d391, 21)
  }

  /** SET and GET: the n-th word, least significant byte first. */
  function WordAt(block: seq<Byte>, n: nat): Word {
    At(block, 4 * n) | (At(block, 4 * n + 1) << 8) | (At(block, 4 * n + 2) << 16) | (At(block, 4 * n + 3) << 24)
  }

  function CodeRound(i: nat, x: Word, y: Word, z: Word): Word {
    if i < 16 then F(x, y, z) else if i < 32 then G(x, y, z) else if i < 48 then H(x, y, z) else I(x, y, z)
  }

  /** STEP, whose three assignments change the register that is named first. */
  function Stepped(a: Word, f: Word, x: Word, t: Word, s: Amount, b: Word): Word {
    RotateLeft(a + (f + x + t), s) + b
  }

  /** The registers in the order in which the line names them, the one that changes first. */
  function Turned<W>(q: Four<W>, i: nat): Four<W> {
    if i % 4 == 0 then q
    else if i % 4 == 1 then Quad(q.d, q.a, q.b, q.c)
    else if i % 4 == 2 then Quad(q.c, q.d, q.a, q.b)
    else Quad(q.b, q.c, q.d, q.a)
  }

  /** The register that line i names first becomes w; all stay where they are. */
  function Put<W>(q: Four<W>, i: nat, w: W): Four<W> {
    if i % 4 == 0 then q.(a := w) else if i % 4 == 1 then q.(d := w) else if i % 4 == 2 then q.(c := w) else q.(b := w)
  }

  function CodeStep(q: Quad, i: nat, x: Word, t: Word, s: Amount): Quad {
    var u := Turned(q, i);
    Put(q, i, Stepped(u.a, CodeRound(i, u.b, u.c, u.d), x, t, s, u.b))
  }

  function CodeSteps(q: Quad, block: seq<Byte>, i: nat): Quad
    requires i <= 64
    decreases 64 - i
  {
    if i == 64 then q
    else
      var l := LineAt(i);
      CodeSteps(CodeStep(q, i, WordAt(block, l.index), l.t, l.shift), block, i + 1)
  }

  function Sum(q: Quad, r: Quad): Quad {
    Quad(r.a + q.a, r.b + q.b, r.c + q.c, r.d + q.d)
  }

  function Compress(q: Quad, block: seq<Byte>): Quad {
    Sum(q, CodeSteps(q, block, 0))
  }

  // ----- one block, as section 3.4 of RFC 1321 defines it

  /** The table of section 3.4, by rounds. */
  function T(i: nat): Word {
    if i < 16 then T1(i) else if i < 32 then T2(i) else if i < 48 then T3(i) else T4(i)
  }

  function T1(i: nat): Word {
    match i
    case 0 => 0xd76aa478
    case 1 => 0xe8c7b756
    case 2 => 0x242070db
    case 3 => 0xc1bdceee
    case 4 => 0xf57c0faf
    case 5 => 0x4787c62a
    case 6 => 0xa8304613
    case 7 => 0xfd469501
    case 8 => 0x698098d8
    case 9 => 0x8b44f7af
    case 10 => 0xffff5bb1
    case 11 => 0x895cd7be
    case 12 => 0x6b901122
    case 13 => 0xfd987193
    case 14 => 0xa679438e
    case _ => 0x49b40821
  }

  function T2(i: nat): Word {
    match i
    case 16 => 0xf61e2562
    case 17 => 0xc040b340
    case 18 => 0x265e5a51
    case 19 => 0xe9b6c7aa
    case 20 => 0xd62f105d
    case 21 => 0x02441453
    case 22 => 0xd8a1e681
    case 23 => 0xe7d3fbc8
    case 24 => 0x21e1cde6
    case 25 => 0xc33707d6
    case 26 => 0xf4d50d87
    case 27 => 0x455a14ed
    case 28 => 0xa9e3e905
    case 29 => 0xfcefa3f8
    case 30 => 0x676f02d9
    case _ => 0x8d2a4c8a
  }

  function T3(i: nat): Word {
    match i
    case 32 => 0xfffa3942
    case 33 => 0x8771f681
    case 34 => 0x6d9d6122
    case 35 => 0xfde5380c
    case 36 => 0xa4beea44
    case 37 => 0x4bdecfa9
    case 38 => 0xf6bb4b60
    case 39 => 0xbebfbc70
    case 40 => 0x289b7ec6
    case 41 => 0xeaa127fa
    case 42 => 0xd4ef3085
    case 43 => 0x04881d05
    case 44 => 0xd9d4d039
    case 45 => 0xe6db99e5
    case 46 => 0x1fa27cf8
    case _ => 0xc4ac5665
  }

  function T4(i: nat): Word {
    match i
    case 48 => 0xf4292244
    case 49 => 0x432aff97
    case 50 => 0xab9423a7
    case 51 => 0xfc93a039
    case 52 => 0x655b59c3
    case 53 => 0x8f0ccc92
    case 54 => 0xffeff47d
    case 55 => 0x85845dd1
    case 56 => 0x6fa87e4f
    case 57 => 0xfe2ce6e0
    case 58 => 0xa3014314
    case 59 => 0x4e0811a1
    case 60 => 0xf7537e82
    case 61 => 0xbd3af235
    case 62 => 0x2ad7d2bb
    case _ => 0xeb86d391
  }

  function Shift(i: nat): Amount {
    var j := i % 4;
    if i < 16 then (if j == 0 then 7 else if j == 1 then 12 else if j == 2 then 17 else 22)
    else if i < 32 then (if j == 0 then 5 else if j == 1 then 9 else if j == 2 then 14 else 20)
    else if i < 48 then (if j == 0 then 4 else if j == 1 then 11 else if j == 2 then 16 else 23)
    else (if j == 0 then 6 else if j == 1 then 10 else if j == 2 then 15 else 21)
  }

  function Index(i: nat): nat {
    if i < 16 then i
    else if i < 32 then (5 * i + 1) % 16
    else if i < 48 then (3 * i + 5) % 16
    else 7 * i % 16
  }

  function RfcRound(i: nat, x: Word, y: Word, z: Word): Word {
    if i < 16 then RfcF(x, y, z) else if i < 32 then RfcG(x, y, z) else if i < 48 then H(x, y, z) else I(x, y, z)
  }

  /** a = b + ((a + f(b, c, d) + X[k] + T[i]) <<< s), after which the four words change their parts. */
  function RfcStep(q: Quad, i: nat, block: seq<Byte>): Quad
    requires i < 64
  {
    var x := WordAt(block, Index(i));
    Quad(q.d, RfcWord(q.b, q.a, RfcRound(i, q.b, q.c, q.d), x, T(i), Shift(i)), q.b, q.c)
  }

  function RfcWord(b: Word, a: Word, f: Word, x: Word, t: Word, s: Amount): Word {
    b + RotateLeft(a + f + x + t, s)
  }

  function RfcSteps(q: Quad, block: seq<Byte>, i: nat): Quad
    requires i <= 64
    decreases 64 - i
  {
    if i == 64 then q else RfcSteps(RfcStep(q, i, block), block, i + 1)
  }

  // ----- they agree

  /** To keep the registers and name them in turn is to pass the words on from part to part. */
  lemma TurnedPut<W>(q: Four<W>, i: nat, w: W)
    ensures var u := Turned(q, i); Turned(Put(q, i, w), i + 1) == Quad(u.d, w, u.b, u.c)
  {
    NextTurn(i);
  }

  lemma RoundsAgree(i: nat, x: Word, y: Word, z: Word)
    ensures CodeRound(i, x, y, z) == RfcRound(i, x, y, z)
  {
    hide F, G, H, I, RfcF, RfcG;
    FastF(x, y, z);
    FastG(x, y, z);
  }

  /** Each of the 64 lines names the word, the constant and the shift of its step. */
  lemma LinesAgree(i: nat)
    requires i < 64
    ensures LineAt(i) == Line(Index(i), T(i), Shift(i))
  {
    if i < 16 { Lines1(i); } else if i < 32 { Lines2(i); } else if i < 48 { Lines3(i); } else { Lines4(i); }
  }

  lemma Lines1(i: nat)
    requires i < 16
    ensures LineAt(i) == Line(Index(i), T(i), Shift(i))
  {
  }

  lemma Lines2(i: nat)
    requires 16 <= i < 32
    ensures LineAt(i) == Line(Index(i), T(i), Shift(i))
  {
  }

  lemma Lines3(i: nat)
    requires 32 <= i < 48
    ensures LineAt(i) == Line(Index(i), T(i), Shift(i))
  {
  }

  lemma Lines4(i: nat)
    requires 48 <= i < 64
    ensures LineAt(i) == Line(Index(i), T(i), Shift(i))
  {
  }

  lemma SameWord(a: Word, b: Word, f: Word, x: Word, t: Word, s: Amount)
    ensures Stepped(a, f, x, t, s, b) == RfcWord(b, a, f, x, t, s)
  {
    hide RotateLeft;
    Sums(a, f, x, t);
    Commutes(RotateLeft(a + f + x + t, s), b);
  }

  lemma Sums(a: Word, f: Word, x: Word, t: Word)
    ensures a + (f + x + t) == a + f + x + t
  {
  }

  lemma Commutes(x: Word, y: Word)
    ensures x + y == y + x
  {
  }

  lemma StepAgrees(q: Quad, i: nat, block: seq<Byte>)
    requires i < 64
    ensures var l := LineAt(i);
      Turned(CodeStep(q, i, WordAt(block, l.index), l.t, l.shift), i + 1) == RfcStep(Turned(q, i), i, block)
  {
    hide Stepped, RfcWord, WordAt, LineAt, Index, T, Shift, CodeRound, RfcRound, Turned, Put;
    LinesAgree(i);
    var u, x := Turned(q, i), WordAt(block, Index(i));
    TurnedPut(q, i, Stepped(u.a, CodeRound(i, u.b, u.c, u.d), x, T(i), Shift(i), u.b));
    RoundsAgree(i, u.b, u.c, u.d);
    SameWord(u.a, u.b, RfcRound(i, u.b, u.c, u.d), x, T(i), Shift(i));
  }

  lemma NextTurn(i: nat)
    ensures (i + 1) % 4 == if i % 4 == 3 then 0 else i % 4 + 1
  {
  }

  lemma {:induction false} StepsAgree(q: Quad, block: seq<Byte>, i: nat)
    requires i <= 64
    ensures CodeSteps(q, block, i) == RfcSteps(Turned(q, i), block, i)
    decreases 64 - i
  {
    hide CodeStep, RfcStep, WordAt, LineAt;
    if i < 64 {
      StepAgrees(q, i, block);
      var l := LineAt(i);
      StepsAgree(CodeStep(q, i, WordAt(block, l.index), l.t, l.shift), block, i + 1);
    }
  }

  /** The code does to every block what the standard says. */
  lemma CompressIsRfc(q: Quad, block: seq<Byte>)
    ensures Compress(q, block) == Sum(q, RfcSteps(q, block, 0))
  {
    hide CodeSteps, RfcSteps, Sum;
    StepsAgree(q, block, 0);
  }

  // ----- messages

  /** A number below 2^32, least significant byte first. */
  function Le32(n: int): (r: seq<Byte>)
    requires 0 <= n < U32
    ensures |r| == 4
  {
    [n % 256, n / 256 % 256, n / 0x1_0000 % 256, n / 0x100_0000]
  }

  /** The length in bits modulo 2^64 (section 3.2 of RFC 1321). */
  function LengthOf(n: nat): (r: seq<Byte>)
    ensures |r| == 8
  {
    Le32(8 * n % U32) + Le32(8 * n / U32 % U32)
  }

  function Padded(m: seq<Byte>): seq<Byte> {
    m + Padding(|m|, LengthOf(|m|))
  }

  function Output(q: Quad): seq<Byte> {
    Le32(q.a as int) + Le32(q.b as int) + Le32(q.c as int) + Le32(q.d as int)
  }

  function Digest(m: seq<Byte>): seq<Byte> {
    Output(Fold(Compress, INIT, Padded(m)))
  }

  /** lo and hi count the bytes modulo 2^61, so shifted they are the length in bits. */
  lemma CounterIsLength(lo: int, hi: int, n: nat)
    requires 0 <= lo < U29 && 0 <= hi < U32 && lo + U29 * hi == n % U61
    ensures 8 * lo == 8 * n % U32 && hi == 8 * n / U32 % U32 && lo % BLOCK == n % BLOCK
  {
    var k := n / U61;
    assert n == lo + U29 * hi + U61 * k;
    assert 8 * n == 8 * lo + U32 * (hi + U32 * k);
    DivMod(8 * n, U32, hi + U32 * k, 8 * lo);
    DivMod(hi + U32 * k, U32, k, hi);
    DivMod(n, BLOCK, lo / BLOCK + U29 / BLOCK * (hi + U32 * k), lo % BLOCK);
  }

  /** The carry is where the counter wraps. */
  lemma CounterAdds(lo: int, hi: int, n: nat, size: nat)
    requires 0 <= lo < U29 && 0 <= hi < U32 && lo + U29 * hi == n % U61
    ensures var lo' := (lo + size) % U29;
      var hi' := ((if lo' < lo then (hi + 1) % U32 else hi) + size / U29) % U32;
      lo' + U29 * hi' == (n + size) % U61
  {
    var lo', carry := (lo + size) % U29, if (lo + size) % U29 < lo then 1 else 0;
    assert lo + size % U29 == lo' + U29 * carry;
    var h := hi + carry + size / U29;
    var hi' := h % U32;
    assert hi' == ((if carry == 1 then (hi + 1) % U32 else hi) + size / U29) % U32;
    var k := n / U61;
    assert n + size == lo' + U29 * h + U61 * k;
    assert h == U32 * (h / U32) + hi';
    assert n + size == U61 * (k + h / U32) + (lo' + U29 * hi');
    DivMod(n + size, U61, k + h / U32, lo' + U29 * hi');
  }

  class Context {
    var lo: int
    var hi: int
    var quad: Quad
    const buffer: array<Byte>
    ghost var message: seq<Byte>

    ghost predicate Valid()
      reads this, buffer
    {
      && buffer.Length == 64 && 0 <= lo < U29 && 0 <= hi < U32 && lo + U29 * hi == |message| % U61
      && Absorbed(Compress, INIT, message, quad, buffer[..|message| % BLOCK])
    }

    constructor ()
      ensures Valid() && message == [] && fresh(buffer)
    {
      lo, hi, quad, message := 0, 0, INIT, [];
      buffer := new Byte[64](_ => 0);
    }

    /** body */
    method Body(data: seq<Byte>)
      requires |data| % BLOCK == 0 && data != []
      modifies `quad
      ensures quad == Fold(Compress, old(quad), data)
    {
      hide Compress;
      var ptr := data;
      while true
        invariant |ptr| % BLOCK == 0 && ptr != []
        invariant Fold(Compress, quad, ptr) == Fold(Compress, old(quad), data)
        decreases |ptr|
      {
        quad := Compress(quad, ptr[..BLOCK]);
        ptr := ptr[BLOCK..];
        if ptr == [] { break; }
      }
    }

    method Update(data: seq<Byte>)
      requires Valid()
      modifies this, buffer
      ensures Valid() && message == old(message) + data
    {
      hide Compress, Fold;
      CounterAdds(lo, hi, |message|, |data|);
      CounterIsLength(lo, hi, |message|);
      AbsorbMore(Compress, INIT, message, quad, buffer[..|message| % BLOCK], data);
      var used := lo % BLOCK;
      Count(|data|);
      Absorb(used, data);
      message := message + data;
    }

    method Count(size: nat)
      modifies `lo, `hi
      requires 0 <= lo < U29
      ensures lo == (old(lo) + size) % U29
      ensures hi == ((if lo < old(lo) then (old(hi) + 1) % U32 else old(hi)) + size / U29) % U32
    {
      var savedLo := lo;
      lo := (savedLo + size) % U29;
      if lo < savedLo { hi := (hi + 1) % U32; }
      hi := (hi + size / U29) % U32;
    }

    method Absorb(used: nat, data: seq<Byte>)
      requires buffer.Length == BLOCK && used < BLOCK
      modifies `quad, buffer
      ensures var all := old(buffer[..used]) + data;
        quad == Fold(Compress, old(quad), all[..Whole(|all|)]) && buffer[..|all| % BLOCK] == all[Whole(|all|)..]
    {
      hide Compress, Fold;
      ghost var all := buffer[..used] + data;
      var rest := data;
      if used > 0 {
        var free := BLOCK - used;
        if |rest| < free {
          CopyInto(buffer, used, rest);
          NoBlock(quad, all);
          return;
        }
        CopyInto(buffer, used, rest[..free]);
        rest := rest[free..];
        assert buffer[..] == all[..BLOCK] && rest == all[BLOCK..];
        BlockAndRest(quad, all);
        Body(buffer[..]);
      } else {
        assert all == data;
      }
      AbsorbBlocks(rest);
    }

    lemma NoBlock(q: Quad, all: seq<Byte>)
      requires |all| < BLOCK
      ensures all[..Whole(|all|)] == [] && all[Whole(|all|)..] == all && Fold(Compress, q, []) == q
    {
      hide Compress;
    }

    lemma BlockAndRest(q: Quad, all: seq<Byte>)
      requires |all| >= BLOCK
      ensures var rest := all[BLOCK..];
        && Fold(Compress, Fold(Compress, q, all[..BLOCK]), rest[..Whole(|rest|)])
          == Fold(Compress, q, all[..Whole(|all|)])
        && rest[Whole(|rest|)..] == all[Whole(|all|)..] && |rest| % BLOCK == |all| % BLOCK
    {
      hide Compress, Fold;
      var rest := all[BLOCK..];
      assert all[..Whole(|all|)] == all[..BLOCK] + rest[..Whole(|rest|)];
      FoldAppend(Compress, q, all[..BLOCK], rest[..Whole(|rest|)]);
    }

    /** The whole blocks of the data are digested where they stand; the rest is kept. */
    method AbsorbBlocks(data: seq<Byte>)
      requires buffer.Length == BLOCK
      modifies `quad, buffer
      ensures quad == Fold(Compress, old(quad), data[..Whole(|data|)])
        && buffer[..|data| % BLOCK] == data[Whole(|data|)..]
    {
      hide Compress, Fold;
      var rest := data;
      if |rest| >= BLOCK {
        var n := Whole(|rest|);
        Body(rest[..n]);
        rest := rest[n..];
      } else {
        NoBlock(quad, data);
      }
      CopyInto(buffer, 0, rest);
    }

    method Final() returns (result: seq<Byte>)
      requires Valid()
      modifies this, buffer
      ensures result == Digest(message) && message == old(message)
    {
      hide Compress, Fold, Output, Le32;
      CounterIsLength(lo, hi, |message|);
      ghost var rest := buffer[..|message| % BLOCK];
      AbsorbEnd(Compress, INIT, message, quad, rest, LengthOf(|message|));
      PaddedEnd(rest, |message|, LengthOf(|message|));
      Pad();
      result := Output(quad);
      lo, hi, quad := 0, 0, Quad(0, 0, 0, 0);
      CopyInto(buffer, 0, Zeros(BLOCK));
    }

    method Pad()
      requires buffer.Length == BLOCK && 0 <= lo < U29 && 0 <= hi < U32
      modifies `lo, `quad, buffer
      ensures var rest, length := old(buffer[..lo % BLOCK]), Le32(8 * old(lo)) + Le32(hi);
        quad == Fold(Compress, old(quad),
          if |rest| <= 55 then rest + [0x80] + Zeros(55 - |rest|) + length
          else (rest + [0x80] + Zeros(63 - |rest|)) + (Zeros(56) + length))
    {
      hide Compress, Fold, Le32;
      var used := lo % BLOCK;
      ghost var rest, length := buffer[..used], Le32(8 * lo) + Le32(hi);
      CopyInto(buffer, used, [0x80]);
      used := used + 1;
      var free := BLOCK - used;
      if free < 8 {
        CopyInto(buffer, used, Zeros(free));
        ghost var first := buffer[..];
        assert first == rest + [0x80] + Zeros(63 - |rest|);
        FoldAppend(Compress, quad, first, Zeros(56) + length);
        Body(buffer[..]);
        assert buffer[..0] + Zeros(56) == Zeros(56);
        LastBlock(0);
      } else {
        assert buffer[..used] == rest + [0x80];
        LastBlock(used);
      }
    }

    /** Zeros up to the last eight bytes, and the length. */
    method LastBlock(used: nat)
      requires buffer.Length == BLOCK && used <= 56 && 0 <= lo < U29 && 0 <= hi < U32
      modifies `lo, `quad, buffer
      ensures quad == Fold(Compress, old(quad), old(buffer[..used]) + Zeros(56 - used) + (Le32(8 * old(lo)) + Le32(hi)))
    {
      hide Compress, Fold, Le32;
      var free := BLOCK - used;
      CopyInto(buffer, used, Zeros(free - 8));
      lo := 8 * lo;
      CopyInto(buffer, 56, Le32(lo) + Le32(hi));
      assert buffer[..] == buffer[..64];
      Body(buffer[..]);
    }
  }
}

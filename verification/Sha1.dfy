/** SHA-1 (FIPS 180-4): the compression of a block, and the object that takes a message byte by byte. */
module Sha1 {
  import opened Blocks

  type Word = bv32
  datatype Five = Five(a: Word, b: Word, c: Word, d: Word, e: Word)

  const INIT := Five(0x67452301, 0xEFCDAB89, 0x98BADCFE, 0x10325476, 0xC3D2E1F0)
  const U32 := 0x1_0000_0000
  const U64 := 0x1_0000_0000_0000_0000

  // ----- the round functions

  function Choose(x: Word, y: Word, z: Word): Word { (x & y) | (!x & z) }
  function Majority(x: Word, y: Word, z: Word): Word { (x & y) | (x & z) | (y & z) }
  function Parity(x: Word, y: Word, z: Word): Word { x ^ y ^ z }

  /** Ch and Maj as section 4.1.1 of FIPS 180-4 defines them. */
  function FipsCh(x: Word, y: Word, z: Word): Word { (x & y) ^ (!x & z) }
  function FipsMaj(x: Word, y: Word, z: Word): Word { (x & y) ^ (x & z) ^ (y & z) }

  /** The function of round t, by section 4.1.1. */
  function FipsF(t: nat, x: Word, y: Word, z: Word): Word {
    if t < 20 then FipsCh(x, y, z) else if 40 <= t < 60 then FipsMaj(x, y, z) else Parity(x, y, z)
  }

  lemma BitsOfCh(x: Word, y: Word, z: Word)
    ensures (x & y) | (!x & z) == (x & y) ^ (!x & z)
  {
  }

  lemma BitsOfMaj(x: Word, y: Word, z: Word)
    ensures (x & y) | (x & z) | (y & z) == (x & y) ^ (x & z) ^ (y & z)
  {
  }

  lemma SameCh(x: Word, y: Word, z: Word)
    ensures Choose(x, y, z) == FipsCh(x, y, z)
  {
    BitsOfCh(x, y, z);
  }

  lemma SameMaj(x: Word, y: Word, z: Word)
    ensures Majority(x, y, z) == FipsMaj(x, y, z)
  {
    BitsOfMaj(x, y, z);
  }

  /** Bit by bit, for any set m of places: where x is set Choose takes y and elsewhere z; where x and y agree
      Majority takes them and elsewhere z; where x and y agree Parity takes z and elsewhere turns z over. */
  lemma BitByBit(x: Word, y: Word, z: Word, m: Word)
    ensures (x & m == m ==> Choose(x, y, z) & m == y & m) && (x & m == 0 ==> Choose(x, y, z) & m == z & m)
    ensures x & m == y & m ==> Majority(x, y, z) & m == x & m && Parity(x, y, z) & m == z & m
    ensures x & m == !y & m ==> Majority(x, y, z) & m == z & m && Parity(x, y, z) & m == !z & m
  {
    hide Choose, Majority, Parity;
    if x & m == m { WhereChoose(x, y, z, m); }
    if x & m == 0 { ElseChoose(x, y, z, m); }
    if x & m == y & m { WhereMajority(x, y, z, m); }
    if x & m == !y & m { ElseMajority(x, y, z, m); }
    if x & m == y & m { WhereParity(x, y, z, m); }
    if x & m == !y & m { ElseParity(x, y, z, m); }
  }

  lemma WhereChoose(x: Word, y: Word, z: Word, m: Word)
    requires x & m == m
    ensures Choose(x, y, z) & m == y & m
  {
  }

  lemma ElseChoose(x: Word, y: Word, z: Word, m: Word)
    requires x & m == 0
    ensures Choose(x, y, z) & m == z & m
  {
  }

  lemma WhereMajority(x: Word, y: Word, z: Word, m: Word)
    requires x & m == y & m
    ensures Majority(x, y, z) & m == x & m
  {
  }

  lemma ElseMajority(x: Word, y: Word, z: Word, m: Word)
    requires x & m == !y & m
    ensures Majority(x, y, z) & m == z & m
  {
  }

  lemma WhereParity(x: Word, y: Word, z: Word, m: Word)
    requires x & m == y & m
    ensures Parity(x, y, z) & m == z & m
  {
  }

  lemma ElseParity(x: Word, y: Word, z: Word, m: Word)
    requires x & m == !y & m
    ensures Parity(x, y, z) & m == !z & m
  {
  }

  // ----- one block

  /** The n-th word of the block, most significant byte first. */
  function WordAt(block: seq<Byte>, n: nat): Word {
    (At(block, 4 * n) << 24) | (At(block, 4 * n + 1) << 16) | (At(block, 4 * n + 2) << 8) | At(block, 4 * n + 3)
  }

  function Mix(w: Word, x: Word, y: Word, z: Word): Word {
    RotateLeft(w ^ x ^ y ^ z, 1)
  }

  /** The message schedule. */
  function W(block: seq<Byte>, t: nat): Word {
    if t < 16 then WordAt(block, t)
    else Mix(W(block, t - 3), W(block, t - 8), W(block, t - 14), W(block, t - 16))
  }

  function K(t: nat): Word {
    if t < 20 then 0x5A827999 else if t < 40 then 0x6ED9EBA1 else if t < 60 then 0x8F1BBCDC else 0xCA62C1D6
  }

  /** One round on the five working variables. */
  function Turn(s: Five, f: Word, w: Word, k: Word): Five {
    Five(RotateLeft(s.a, 5) + f + s.e + w + k, s.a, RotateLeft(s.b, 30), s.c, s.d)
  }

  /** Rounds t to 79 of section 6.1.2. */
  function Turns(s: Five, block: seq<Byte>, t: nat): Five
    requires t <= 80
    decreases 80 - t
  {
    if t == 80 then s else Turns(Turn(s, FipsF(t, s.b, s.c, s.d), W(block, t), K(t)), block, t + 1)
  }

  function Sum(s: Five, r: Five): Five {
    Five(s.a + r.a, s.b + r.b, s.c + r.c, s.d + r.d, s.e + r.e)
  }

  /** The hash value after a block, by section 6.1.2 of FIPS 180-4. */
  function Compress(s: Five, block: seq<Byte>): Five {
    Sum(s, Turns(s, block, 0))
  }

  // ----- messages

  /** A number below 2^32, most significant byte first. */
  function Be32(n: int): (r: seq<Byte>)
    requires 0 <= n < U32
    ensures |r| == 4
  {
    [n / 0x100_0000, n / 0x1_0000 % 256, n / 256 % 256, n % 256]
  }

  /** The length in bits as 64 bits (section 5.1.1 of FIPS 180-4). */
  function LengthOf(n: nat): (r: seq<Byte>)
    ensures |r| == 8
  {
    Be32(8 * n / U32 % U32) + Be32(8 * n % U32)
  }

  function Padded(m: seq<Byte>): seq<Byte> {
    m + Padding(|m|, LengthOf(|m|))
  }

  function Digest(m: seq<Byte>): Five {
    Fold(Compress, INIT, Padded(m))
  }

  lemma CountersAreLength(n: nat, high: int, low: int)
    requires 0 <= low < U32 && 0 <= high < U32 && low + U32 * high == 8 * n
    ensures 8 * n % U32 == low && 8 * n / U32 % U32 == high
  {
  }

  /** The words of the schedule, each computed from earlier ones. */
  method Schedule(data: seq<Byte>) returns (w: array<Word>)
    ensures fresh(w) && w.Length == 80 && forall i :: 0 <= i < 80 ==> w[i] == W(data, i)
  {
    hide Mix, WordAt;
    w := new Word[80];
    var t := 0;
    while t < 16
      invariant 0 <= t <= 16 && forall i :: 0 <= i < t ==> w[i] == W(data, i)
    {
      w[t] := WordAt(data, t);
      t := t + 1;
    }
    while t < 80
      invariant 16 <= t <= 80 && forall i :: 0 <= i < t ==> w[i] == W(data, i)
    {
      w[t] := Mix(w[t - 3], w[t - 8], w[t - 14], w[t - 16]);
      t := t + 1;
    }
  }

  class Sha1Object {
    var lengthLow: int
    var lengthHigh: int
    const block: array<Byte>
    var index: int
    var h: Five
    var computed: bool
    var corrupted: bool
    ghost var message: seq<Byte>

    /** While it takes input, the object stands for the message so far; its two counters hold the length in
        bits. Once computed, it holds the digest. */
    ghost predicate Valid()
      reads this, block
    {
      && block.Length == BLOCK
      && (!computed && !corrupted ==> Running(message))
      && (computed && !corrupted ==> h == Digest(message))
    }

    ghost predicate Running(m: seq<Byte>)
      reads this, block
    {
      && block.Length == BLOCK && 0 <= lengthLow < U32 && 0 <= lengthHigh < U32
      && lengthLow + U32 * lengthHigh == 8 * |m| && index == |m| % BLOCK
      && Absorbed(Compress, INIT, m, h, block[..index])
    }

    constructor ()
      ensures Valid() && fresh(block) && message == [] && !computed && !corrupted
    {
      block := new Byte[64](_ => 0);
      lengthLow, lengthHigh, index, h := 0, 0, 0, INIT;
      computed, corrupted, message := false, false, [];
    }

    method Reset()
      requires Valid()
      modifies this
      ensures Valid() && message == [] && !computed && !corrupted
    {
      lengthLow, lengthHigh, index := 0, 0, 0;
      h := INIT;
      computed, corrupted := false, false;
      message := [];
    }

    /** Input is taken up to the length limit and until the digest is asked for; otherwise the object is
        corrupted for good. */
    method Input(data: seq<Byte>)
      requires Valid()
      modifies this, block
      ensures Valid() && computed == old(computed)
      ensures corrupted <==> old(corrupted) || (data != [] && (old(computed) || 8 * |old(message) + data| >= U64))
      ensures !corrupted ==> message == old(message) + data
    {
      hide Compress, Fold, Digest;
      if data == [] { return; }
      if computed || corrupted {
        corrupted := true;
        return;
      }
      ghost var m := message;
      assert m + data[..0] == m;
      var i := 0;
      while i < |data| && !corrupted
        invariant 0 <= i <= |data| && block.Length == BLOCK && !computed
        invariant if corrupted then i > 0 && 8 * (|m| + i) == U64 else Running(m + data[..i])
      {
        assert m + data[..i + 1] == m + data[..i] + [data[i]];
        TakeByte(data[i], m + data[..i]);
        i := i + 1;
      }
      message := m + data;
      assert data[..|data|] == data;
    }

    method TakeByte(b: Byte, ghost m: seq<Byte>)
      requires Running(m) && !corrupted && !computed
      modifies this`lengthLow, this`lengthHigh, this`index, this`h, this`corrupted, block
      ensures if corrupted then 8 * |m + [b]| == U64 else Running(m + [b])
    {
      hide Compress, Fold;
      AbsorbMore(Compress, INIT, m, h, block[..index], [b]);
      ghost var all := block[..index] + [b];
      block[index] := b;
      index := index + 1;
      CountByte(m);
      assert block[..index] == all;
      if index == BLOCK {
        assert all[..BLOCK] == block[..] && all[BLOCK..] == [];
        FoldOne(Compress, h, block[..]);
        ProcessMessageBlock();
      } else {
        NoBlock(h, all);
      }
    }

    lemma NoBlock(s: Five, all: seq<Byte>)
      requires |all| < BLOCK
      ensures Whole(|all|) == 0 && Fold(Compress, s, all[..0]) == s && all[0..] == all
    {
      hide Compress;
    }

    method CountByte(ghost m: seq<Byte>)
      requires 0 <= lengthLow < U32 && 0 <= lengthHigh < U32 && lengthLow + U32 * lengthHigh == 8 * |m| && !corrupted
      modifies this`lengthLow, this`lengthHigh, this`corrupted
      ensures 0 <= lengthLow < U32 && 0 <= lengthHigh < U32
      ensures if corrupted then 8 * (|m| + 1) == U64 else lengthLow + U32 * lengthHigh == 8 * (|m| + 1)
    {
      lengthLow := (lengthLow + 8) % U32;
      if lengthLow == 0 {
        lengthHigh := (lengthHigh + 1) % U32;
        if lengthHigh == 0 { corrupted := true; }
      }
    }

    /** The code's own functions and constants, in four loops, do to the block what the standard says. */
    method ProcessMessageBlock()
      requires block.Length == BLOCK
      modifies this`h, this`index
      ensures h == Compress(old(h), block[..]) && index == 0
    {
      hide W, K, Sum, Turns, Turn, Choose, Majority, Parity, FipsF, FipsCh, FipsMaj;
      var w := Schedule(block[..]);
      var s, t := h, 0;
      while t < 20
        invariant 0 <= t <= 20 && Turns(s, block[..], t) == Turns(h, block[..], 0)
        modifies {}
      {
        FirstRounds(s, block[..], t);
        s := Turn(s, Choose(s.b, s.c, s.d), w[t], 0x5A827999);
        t := t + 1;
      }
      while t < 40
        invariant 20 <= t <= 40 && Turns(s, block[..], t) == Turns(h, block[..], 0)
        modifies {}
      {
        MiddleRounds(s, block[..], t);
        s := Turn(s, Parity(s.b, s.c, s.d), w[t], 0x6ED9EBA1);
        t := t + 1;
      }
      while t < 60
        invariant 40 <= t <= 60 && Turns(s, block[..], t) == Turns(h, block[..], 0)
        modifies {}
      {
        MiddleRounds(s, block[..], t);
        s := Turn(s, Majority(s.b, s.c, s.d), w[t], 0x8F1BBCDC);
        t := t + 1;
      }
      while t < 80
        invariant 60 <= t <= 80 && Turns(s, block[..], t) == Turns(h, block[..], 0)
        modifies {}
      {
        FirstRounds(s, block[..], t);
        s := Turn(s, Parity(s.b, s.c, s.d), w[t], 0xCA62C1D6);
        t := t + 1;
      }
      AllTurned(s, block[..]);
      h := Sum(h, s);
      index := 0;
    }

    static lemma FirstRounds(s: Five, block: seq<Byte>, t: nat)
      requires t < 20 || 60 <= t < 80
      ensures Turns(s, block, t) == if t < 20 then
          Turns(Turn(s, Choose(s.b, s.c, s.d), W(block, t), 0x5A827999), block, t + 1)
        else Turns(Turn(s, Parity(s.b, s.c, s.d), W(block, t), 0xCA62C1D6), block, t + 1)
    {
      hide W, Turn, Choose, FipsCh, Parity;
      SameCh(s.b, s.c, s.d);
    }

    static lemma MiddleRounds(s: Five, block: seq<Byte>, t: nat)
      requires 20 <= t < 60
      ensures Turns(s, block, t) == if t < 40 then
          Turns(Turn(s, Parity(s.b, s.c, s.d), W(block, t), 0x6ED9EBA1), block, t + 1)
        else Turns(Turn(s, Majority(s.b, s.c, s.d), W(block, t), 0x8F1BBCDC), block, t + 1)
    {
      hide W, Turn, Majority, FipsMaj, Parity;
      SameMaj(s.b, s.c, s.d);
    }

    static lemma AllTurned(s: Five, block: seq<Byte>)
      ensures Turns(s, block, 80) == s
    {
    }

    method Result() returns (ok: bool, digest: Five)
      requires Valid()
      modifies this, block
      ensures Valid() && message == old(message) && corrupted == old(corrupted)
      ensures ok <==> !corrupted
      ensures ok ==> computed && digest == Digest(message)
    {
      hide Compress, Fold;
      if corrupted { return false, h; }
      if !computed {
        EndOf(message);
        PadMessage();
        computed := true;
      }
      return true, h;
    }

    lemma EndOf(m: seq<Byte>)
      requires Running(m)
      ensures LengthOf(|m|) == Be32(lengthHigh) + Be32(lengthLow)
      ensures var rest, length := block[..index], Be32(lengthHigh) + Be32(lengthLow);
        Digest(m) == Fold(Compress, h,
          if |rest| <= 55 then rest + [0x80] + Zeros(55 - |rest|) + length
          else (rest + [0x80] + Zeros(63 - |rest|)) + (Zeros(56) + length))
    {
      hide Compress, Fold, Be32, Padding;
      CountersAreLength(|m|, lengthHigh, lengthLow);
      AbsorbEnd(Compress, INIT, m, h, block[..index], LengthOf(|m|));
      PaddedEnd(block[..index], |m|, LengthOf(|m|));
    }

    /** The loops that write zeros up to a given index. */
    method ZerosTo(end: int)
      requires block.Length == BLOCK && 0 <= index <= end <= BLOCK
      modifies this`index, block
      ensures index == end && block[..end] == old(block[..index]) + Zeros(end - old(index))
    {
      while index < end
        invariant old(index) <= index <= end && block[..index] == old(block[..index]) + Zeros(index - old(index))
      {
        block[index] := 0;
        index := index + 1;
        assert Zeros(index - old(index)) == Zeros(index - 1 - old(index)) + [0];
      }
    }

    method PadMessage()
      requires block.Length == BLOCK && 0 <= index < BLOCK && 0 <= lengthLow < U32 && 0 <= lengthHigh < U32
      modifies this`index, this`h, block
      ensures var rest, length := old(block[..index]), Be32(lengthHigh) + Be32(lengthLow);
        h == Fold(Compress, old(h),
          if |rest| <= 55 then rest + [0x80] + Zeros(55 - |rest|) + length
          else (rest + [0x80] + Zeros(63 - |rest|)) + (Zeros(56) + length))
    {
      hide Compress, Fold, Be32;
      ghost var rest, length := block[..index], Be32(lengthHigh) + Be32(lengthLow);
      if index > 55 {
        CopyInto(block, index, [0x80]);
        index := index + 1;
        ZerosTo(64);
        ghost var first := block[..];
        assert first == rest + [0x80] + Zeros(63 - |rest|);
        FoldAppend(Compress, h, first, Zeros(56) + length);
        FoldOne(Compress, h, first);
        ProcessMessageBlock();
        ZerosTo(56);
        assert block[..56] == Zeros(56);
      } else {
        CopyInto(block, index, [0x80]);
        index := index + 1;
        ZerosTo(56);
        assert block[..56] == rest + [0x80] + Zeros(55 - |rest|);
      }
      LastBlock();
    }

    method LastBlock()
      requires block.Length == BLOCK && 0 <= lengthLow < U32 && 0 <= lengthHigh < U32
      modifies this`index, this`h, block
      ensures h == Fold(Compress, old(h), old(block[..56]) + (Be32(lengthHigh) + Be32(lengthLow)))
    {
      hide Compress, Fold, Be32;
      CopyInto(block, 56, Be32(lengthHigh) + Be32(lengthLow));
      assert block[..] == block[..64];
      FoldOne(Compress, h, block[..]);
      ProcessMessageBlock();
    }
  }
}

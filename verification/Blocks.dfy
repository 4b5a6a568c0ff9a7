/** Messages that are digested in blocks of 64 bytes, and the padding that both digests use. */
module Blocks {
  type Byte = x: int | 0 <= x < 256

  const BLOCK := 64

  function At(block: seq<Byte>, i: nat): bv32 {
    if i < |block| then block[i] as bv32 else 0
  }

  function RotateLeft(x: bv32, s: nat): bv32
    requires s < 32
  {
    (x << s) | (x >> (32 - s))
  }

  /** The blocks of the data, one after the other; less than a block at the end is not looked at. */
  function Fold<S>(f: (S, seq<Byte>) -> S, s: S, data: seq<Byte>): S
    decreases |data|
  {
    if |data| < BLOCK then s else Fold(f, f(s, data[..BLOCK]), data[BLOCK..])
  }

  lemma {:induction false} FoldAppend<S>(f: (S, seq<Byte>) -> S, s: S, a: seq<Byte>, b: seq<Byte>)
    requires |a| % BLOCK == 0
    ensures Fold(f, s, a + b) == Fold(f, Fold(f, s, a), b)
    decreases |a|
  {
    if a == [] {
      assert a + b == b;
    } else {
      assert (a + b)[..BLOCK] == a[..BLOCK] && (a + b)[BLOCK..] == a[BLOCK..] + b;
      FoldAppend(f, f(s, a[..BLOCK]), a[BLOCK..], b);
    }
  }

  lemma FoldOne<S>(f: (S, seq<Byte>) -> S, s: S, block: seq<Byte>)
    requires |block| == BLOCK
    ensures Fold(f, s, block) == f(s, block)
  {
    assert block[..BLOCK] == block && block[BLOCK..] == [];
  }

  function Zeros(n: nat): (r: seq<Byte>)
    ensures |r| == n
  {
    seq(n, _ => 0)
  }

  /** How much of n bytes are whole blocks. */
  function Whole(n: nat): (r: nat)
    ensures r <= n && r % BLOCK == 0 && n - r == n % BLOCK
  {
    n - n % BLOCK
  }

  /** What stands behind the message: a bit, zeros up to eight bytes before the end of a block, and `length`. */
  function Padding(n: nat, length: seq<Byte>): seq<Byte> {
    [0x80] + Zeros((119 - n % BLOCK) % BLOCK) + length
  }

  /** The padded message is the shortest one of whole blocks that has room for the padding. */
  lemma PaddedLength(n: nat, length: seq<Byte>)
    requires |length| == 8
    ensures var size := n + |Padding(n, length)|;
      size % BLOCK == 0 && n + 9 <= size < n + 9 + BLOCK
  {
  }

  /** With the end of the message in front, the padding is one block or two. */
  lemma PaddedEnd(rest: seq<Byte>, n: nat, length: seq<Byte>)
    requires |rest| == n % BLOCK && |length| == 8
    ensures if |rest| <= 55 then rest + Padding(n, length) == rest + [0x80] + Zeros(55 - |rest|) + length
            else rest + Padding(n, length) == (rest + [0x80] + Zeros(63 - |rest|)) + (Zeros(56) + length)
  {
    if |rest| > 55 {
      assert Zeros(119 - |rest|) == Zeros(63 - |rest|) + Zeros(56);
    }
  }

  /** What a running digest is after the message m: the state after its whole blocks, and the bytes left. */
  ghost predicate Absorbed<S>(f: (S, seq<Byte>) -> S, init: S, m: seq<Byte>, s: S, rest: seq<Byte>) {
    s == Fold(f, init, m[..Whole(|m|)]) && rest == m[Whole(|m|)..]
  }

  lemma AbsorbMore<S>(f: (S, seq<Byte>) -> S, init: S, m: seq<Byte>, s: S, rest: seq<Byte>, data: seq<Byte>)
    requires Absorbed(f, init, m, s, rest)
    ensures var all := rest + data;
      Absorbed(f, init, m + data, Fold(f, s, all[..Whole(|all|)]), all[Whole(|all|)..])
  {
    var all := rest + data;
    var w := Whole(|m|);
    assert m + data == m[..w] + all;
    assert Whole(|m + data|) == w + Whole(|all|);
    assert (m + data)[..Whole(|m + data|)] == m[..w] + all[..Whole(|all|)];
    FoldAppend(f, init, m[..w], all[..Whole(|all|)]);
  }

  /** The padded message, digested from where the running digest stands. */
  lemma AbsorbEnd<S>(f: (S, seq<Byte>) -> S, init: S, m: seq<Byte>, s: S, rest: seq<Byte>, length: seq<Byte>)
    requires Absorbed(f, init, m, s, rest) && |length| == 8
    ensures |rest| == |m| % BLOCK
    ensures Fold(f, init, m + Padding(|m|, length)) == Fold(f, s, rest + Padding(|m|, length))
  {
    hide Fold, Padding;
    var w := Whole(|m|);
    assert m + Padding(|m|, length) == m[..w] + (rest + Padding(|m|, length));
    FoldAppend(f, init, m[..w], rest + Padding(|m|, length));
  }

  method CopyInto(a: array<Byte>, at: nat, data: seq<Byte>)
    requires at + |data| <= a.Length
    modifies a
    ensures a[..at + |data|] == old(a[..at]) + data && a[at + |data|..] == old(a[at + |data|..])
  {
    forall i | 0 <= i < |data| { a[at + i] := data[i]; }
  }
}

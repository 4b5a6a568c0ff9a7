/** The allocator of small blocks: chunks of 16 KiB, each carved into blocks of one of fourteen sizes, and a
    singly linked free list for each size. Addresses are integers, zero being the null pointer; what malloc
    answers is a parameter. */
module BlockAllocator {
  import opened Wrappers
  import opened Numbers

  type Address = int

  const CHUNK_SIZE := 16 * 1024
  const MAX_BLOCK_SIZE := 640
  const POINTER_SIZE := 8
  const BLOCK_SIZES := 14
  const SIZES: seq<int> := [16, 32, 64, 96, 128, 160, 192, 224, 256, 320, 384, 448, 512, 640]

  datatype Chunk = Chunk(blockSize: int, blocks: Address)

  /** The k-th block of a chunk whose blocks are of a given class. */
  datatype Place = Place(chunk: int, k: int)

  function Blocks(size: int): int
    requires size > 0
  {
    CHUNK_SIZE / size
  }

  // ----- size classes

  /** The smallest class whose blocks can hold n bytes. */
  predicate Fits(n: int, j: int) {
    0 <= j < BLOCK_SIZES && n <= SIZES[j] && (j > 0 ==> SIZES[j - 1] < n)
  }

  lemma SizesGrow(i: int, j: int)
    requires 0 <= i < j < BLOCK_SIZES
    ensures 0 < SIZES[i] < SIZES[j]
  {
  }

  lemma FitsOnce(n: int, i: int, j: int)
    requires Fits(n, i) && Fits(n, j)
    ensures i == j
  {
    if i < j { SizesUpTo(i, j - 1); } else if j < i { SizesUpTo(j, i - 1); }
  }

  /** Every block is aligned to sixteen bytes in its chunk, and no size class wastes more than it holds. */
  lemma SizesAligned(j: int)
    requires 0 <= j < BLOCK_SIZES
    ensures SIZES[j] % 16 == 0 && (j > 0 ==> SIZES[j] <= 2 * SIZES[j - 1])
    ensures SIZES[0] == 16 && SIZES[13] == 640 == MAX_BLOCK_SIZE
  {
  }

  lemma SizesUpTo(i: int, j: int)
    requires 0 <= i <= j < BLOCK_SIZES
    ensures SIZES[i] <= SIZES[j]
  {
    if i < j { SizesGrow(i, j); }
  }

  /** The loop in the constructor that fills the lookup table. */
  method BuildLookup() returns (lookup: array<int>)
    ensures fresh(lookup) && lookup.Length == MAX_BLOCK_SIZE + 1
    ensures forall n :: 1 <= n <= MAX_BLOCK_SIZE ==> Fits(n, lookup[n])
  {
    lookup := new int[MAX_BLOCK_SIZE + 1](_ => 0);
    var j := 0;
    for i := 1 to MAX_BLOCK_SIZE + 1
      invariant 0 <= j < BLOCK_SIZES && i <= SIZES[j] + 1 && (j > 0 ==> SIZES[j - 1] < i)
      invariant forall n :: 1 <= n < i ==> Fits(n, lookup[n])
    {
      if i > SIZES[j] { j := j + 1; }
      lookup[i] := j;
    }
  }

  // ----- sums over the map of allocations

  ghost function Sum(m: map<Address, int>): int {
    if exists a :: a in m then var a :| a in m; m[a] + Sum(m - {a}) else 0
  }

  lemma {:induction false} SumWithout(m: map<Address, int>, a: Address)
    requires a in m
    ensures Sum(m) == m[a] + Sum(m - {a})
    decreases |m|
  {
    var b :| b in m && Sum(m) == m[b] + Sum(m - {b});
    if a != b {
      SumWithout(m - {b}, a);
      SumWithout(m - {a}, b);
      assert m - {a} - {b} == m - {b} - {a};
    }
  }

  lemma SumWith(m: map<Address, int>, a: Address, size: int)
    requires a !in m
    ensures Sum(m[a := size]) == Sum(m) + size
  {
    SumWithout(m[a := size], a);
    assert m[a := size] - {a} == m;
  }

  // ----- blocks of a chunk

  function BlockAt(c: Chunk, k: int): Address {
    c.blocks + k * c.blockSize
  }

  lemma BlocksApart(c: Chunk, j: int, k: int)
    requires c.blockSize > 0 && j < k
    ensures BlockAt(c, j) + c.blockSize <= BlockAt(c, k)
  {
    ProductsGrow(j + 1, k, c.blockSize);
    assert (j + 1) * c.blockSize == j * c.blockSize + c.blockSize;
  }

  lemma QuotientFits(n: int, d: int)
    requires n >= 0 && d > 0
    ensures n / d * d <= n
  {
    assert n == d * (n / d) + n % d;
  }

  lemma ProductsGrow(j: int, k: int, n: int)
    requires j <= k && n > 0
    ensures j * n <= k * n
  {
    Multiples(k - j, n);
    assert k * n == j * n + (k - j) * n;
  }

  lemma BlockInside(c: Chunk, k: int)
    requires c.blockSize > 0 && 0 <= k < Blocks(c.blockSize)
    ensures c.blocks <= BlockAt(c, k) && BlockAt(c, k) + c.blockSize <= c.blocks + CHUNK_SIZE
  {
    var n := Blocks(c.blockSize);
    QuotientFits(CHUNK_SIZE, c.blockSize);
    ProductsGrow(0, k, c.blockSize);
    ProductsGrow(k + 1, n, c.blockSize);
  }

  ghost function BlocksFrom(c: Chunk, k: int): (r: seq<Address>)
    requires c.blockSize > 0 && 0 <= k <= Blocks(c.blockSize)
    ensures |r| == Blocks(c.blockSize) - k && forall i :: 0 <= i < |r| ==> r[i] == BlockAt(c, k + i)
  {
    seq(Blocks(c.blockSize) - k, i => BlockAt(c, k + i))
  }

  // ----- free lists

  /** The blocks of a free list, each holding the address of the next. */
  ghost predicate Chain(memory: map<Address, Address>, head: Address, list: seq<Address>)
    decreases |list|
  {
    if list == [] then head == 0
    else head == list[0] && head != 0 && head in memory && Chain(memory, memory[head], list[1..])
  }

  lemma {:induction false} ChainElsewhere(memory: map<Address, Address>, memory': map<Address, Address>,
    head: Address, list: seq<Address>)
    requires Chain(memory, head, list) && forall a :: a in list && a in memory ==>
      a in memory' && memory'[a] == memory[a]
    ensures Chain(memory', head, list)
    decreases |list|
  {
    if list != [] { ChainElsewhere(memory, memory', memory[head], list[1..]); }
  }

  lemma BlocksDiffer(c: Chunk, k: int)
    requires c.blockSize > 0 && 0 <= k <= Blocks(c.blockSize)
    ensures Distinct(BlocksFrom(c, k))
  {
    forall i, j | 0 <= i < j < |BlocksFrom(c, k)| ensures BlocksFrom(c, k)[i] != BlocksFrom(c, k)[j] {
      BlocksApart(c, k + i, k + j);
    }
  }

  /** The j-th block of a chunk holds the address of the next, and the last one zero. */
  ghost predicate LinkedAt(memory: map<Address, Address>, c: Chunk, j: int)
    requires c.blockSize > 0
  {
    BlockAt(c, j) in memory && memory[BlockAt(c, j)] == if j + 1 < Blocks(c.blockSize) then BlockAt(c, j + 1) else 0
  }

  lemma LinkOne(memory: map<Address, Address>, memory': map<Address, Address>, c: Chunk, i: int)
    requires c.blockSize > 0 && 0 <= i < Blocks(c.blockSize)
    requires forall j :: 0 <= j < i ==> LinkedAt(memory, c, j)
    requires memory' == memory[BlockAt(c, i) := if i + 1 < Blocks(c.blockSize) then BlockAt(c, i + 1) else 0]
    ensures forall j :: 0 <= j <= i ==> LinkedAt(memory', c, j)
  {
    forall j | 0 <= j < i ensures LinkedAt(memory', c, j) {
      assert LinkedAt(memory, c, j);
      BlocksApart(c, j, i);
    }
  }

  /** Blocks linked each to the next form a chain. */
  lemma {:induction false} ChainCarved(memory: map<Address, Address>, c: Chunk, k: int)
    requires c.blockSize > 0 && c.blocks > 0 && 0 <= k < Blocks(c.blockSize)
    requires forall j :: k <= j < Blocks(c.blockSize) ==> LinkedAt(memory, c, j)
    ensures Chain(memory, BlockAt(c, k), BlocksFrom(c, k))
    decreases Blocks(c.blockSize) - k
  {
    hide BlockAt;
    BlockInside(c, k);
    assert LinkedAt(memory, c, k);
    var list := BlocksFrom(c, k);
    assert list[0] == BlockAt(c, k);
    assert list[1..] == BlocksFrom(c, k + 1);
    if k + 1 < Blocks(c.blockSize) {
      ChainCarved(memory, c, k + 1);
    } else {
      assert |BlocksFrom(c, k + 1)| == 0;
      assert Chain(memory, 0, []);
    }
  }

  lemma ManyBlocks(i: int)
    requires 0 <= i < BLOCK_SIZES
    ensures 16 <= SIZES[i] <= MAX_BLOCK_SIZE && Blocks(SIZES[i]) >= 25
  {
  }

  // ----- the allocator

  /** Two regions of memory have no byte in common. */
  predicate Apart(a: Address, n: int, b: Address, m: int) {
    a + n <= b || b + m <= a
  }

  /** The bytes of an address that is stored at c are not among the n bytes from a on. */
  predicate Outside(c: Address, a: Address, n: int) {
    c + POINTER_SIZE <= a || a + n <= c
  }

  /** The byte x is one of the n from a on. */
  predicate Among(x: Address, a: Address, n: int) {
    a <= x < a + n
  }

  /** That is, no byte is in both; and an address takes eight bytes. */
  lemma NoCommonByte(a: Address, n: int, b: Address, m: int)
    requires n > 0 && m > 0
    ensures Apart(a, n, b, m) <==> forall x :: Among(x, a, n) ==> !Among(x, b, m)
    ensures Outside(b, a, n) <==> forall x :: Among(x, a, n) ==> !Among(x, b, 8)
  {
    var x := if a > b then a else b;
    if !Apart(a, n, b, m) { assert Among(x, a, n) && Among(x, b, m); }
    if !Outside(b, a, n) { assert Among(x, a, n) && Among(x, b, 8); }
  }

  ghost predicate Table(lookup: seq<int>) {
    |lookup| == MAX_BLOCK_SIZE + 1 && forall n :: 1 <= n <= MAX_BLOCK_SIZE ==> Fits(n, lookup[n])
  }

  /** What malloc has handed out and not got back. */
  ghost predicate Regions(regions: map<Address, int>) {
    && (forall a :: a in regions ==> a > 0 && regions[a] > 0)
    && (forall a, b :: a in regions && b in regions && a != b ==> Apart(a, regions[a], b, regions[b]))
  }

  /** What malloc may answer: a region apart from all that are in use. */
  ghost predicate FreshRegion(regions: map<Address, int>, p: Address, n: int) {
    p > 0 && n > 0 && forall a :: a in regions ==> Apart(p, n, a, regions[a])
  }

  ghost predicate IsChunk(c: Chunk, i: int, regions: map<Address, int>) {
    0 <= i < BLOCK_SIZES && c.blockSize == SIZES[i] && c.blockSize > 0 && c.blocks > 0
    && c.blocks in regions && regions[c.blocks] == CHUNK_SIZE
  }

  /** Every chunk is a region of its own. */
  ghost predicate Chunks(chunks: seq<Chunk>, classes: seq<int>, regions: map<Address, int>) {
    && |chunks| == |classes|
    && (forall c :: 0 <= c < |chunks| ==> IsChunk(chunks[c], classes[c], regions))
    && (forall c, d :: 0 <= c < d < |chunks| ==> chunks[c].blocks != chunks[d].blocks)
  }

  predicate IsPlace(chunks: seq<Chunk>, p: Place) {
    0 <= p.chunk < |chunks| && chunks[p.chunk].blockSize > 0 && 0 <= p.k < Blocks(chunks[p.chunk].blockSize)
  }

  function AddressOf(chunks: seq<Chunk>, p: Place): Address
    requires IsPlace(chunks, p)
  {
    BlockAt(chunks[p.chunk], p.k)
  }

  /** The blocks are exactly those carved from the chunks. */
  ghost predicate Places(chunks: seq<Chunk>, place: map<Address, Place>) {
    && (forall a :: a in place ==> IsPlace(chunks, place[a]) && a == AddressOf(chunks, place[a]))
    && (forall p :: IsPlace(chunks, p) ==> AddressOf(chunks, p) in place && place[AddressOf(chunks, p)] == p)
  }

  /** Whether a is the address of a block of class i. */
  ghost predicate IsBlock(classes: seq<int>, place: map<Address, Place>, a: Address, i: int) {
    a in place && 0 <= place[a].chunk < |classes| && classes[place[a].chunk] == i
  }

  ghost predicate Lists(freeLists: seq<Address>, memory: map<Address, Address>, free: seq<seq<Address>>) {
    && |freeLists| == |free| == BLOCK_SIZES
    && (forall i :: 0 <= i < BLOCK_SIZES ==> Chain(memory, freeLists[i], free[i]) && Distinct(free[i]))
  }

  /** Each block is on the free list of its class, or it is live, and not both. */
  ghost predicate Partition(classes: seq<int>, place: map<Address, Place>, free: seq<seq<Address>>,
    live: map<Address, int>) {
    && |free| == BLOCK_SIZES
    && (forall i, a :: 0 <= i < BLOCK_SIZES && a in free[i] ==> IsBlock(classes, place, a, i) && a !in live)
    && (forall i, a :: 0 <= i < BLOCK_SIZES && IsBlock(classes, place, a, i) && a !in live ==> a in free[i])
  }

  /** A live block is of the class of its size, or it is a region of its own. */
  ghost predicate Live(lookup: seq<int>, classes: seq<int>, place: map<Address, Place>,
    regions: map<Address, int>, live: map<Address, int>) {
    |lookup| == MAX_BLOCK_SIZE + 1 && forall a :: a in live ==> IsLive(lookup, classes, place, regions, a, live[a])
  }

  ghost predicate IsLive(lookup: seq<int>, classes: seq<int>, place: map<Address, Place>,
    regions: map<Address, int>, a: Address, size: int)
    requires |lookup| == MAX_BLOCK_SIZE + 1
  {
    size > 0 && a > 0 &&
    if size <= MAX_BLOCK_SIZE then IsBlock(classes, place, a, lookup[size])
    else a !in place && a in regions && regions[a] == size
  }

  // ----- a new chunk

  /** The places of a new chunk, up to its k-th block. */
  ghost function PlacesOf(place: map<Address, Place>, c: Chunk, index: int, k: int): map<Address, Place>
    requires 0 <= k
    decreases k
  {
    if k == 0 then place else PlacesOf(place, c, index, k - 1)[BlockAt(c, k - 1) := Place(index, k - 1)]
  }

  lemma {:induction false} PlacesOfChunk(place: map<Address, Place>, c: Chunk, index: int, k: int)
    requires 0 <= k && c.blockSize > 0
    ensures var place' := PlacesOf(place, c, index, k);
      && (forall a :: a in place' <==> a in place || exists j :: 0 <= j < k && a == BlockAt(c, j))
      && (forall j :: 0 <= j < k ==> place'[BlockAt(c, j)] == Place(index, j))
      && (forall a :: a in place && (forall j :: 0 <= j < k ==> a != BlockAt(c, j)) ==> place'[a] == place[a])
    decreases k
  {
    if k > 0 {
      PlacesOfChunk(place, c, index, k - 1);
      forall j | 0 <= j < k - 1 ensures BlockAt(c, j) != BlockAt(c, k - 1) { BlocksApart(c, j, k - 1); }
    }
  }

  /** A fresh region holds none of the blocks there are. */
  lemma NoBlockInside(chunks: seq<Chunk>, classes: seq<int>, regions: map<Address, int>,
    place: map<Address, Place>, p: Address, a: Address)
    requires Regions(regions) && Chunks(chunks, classes, regions) && Places(chunks, place)
    requires FreshRegion(regions, p, CHUNK_SIZE) && a in place
    ensures !(p <= a < p + CHUNK_SIZE)
  {
    var c := place[a].chunk;
    assert IsPlace(chunks, place[a]) && IsChunk(chunks[c], classes[c], regions);
    BlockInside(chunks[c], place[a].k);
  }

  lemma ChunksGrow(chunks: seq<Chunk>, classes: seq<int>, regions: map<Address, int>, c: Chunk, i: int)
    requires Regions(regions) && Chunks(chunks, classes, regions) && FreshRegion(regions, c.blocks, CHUNK_SIZE)
    requires 0 <= i < BLOCK_SIZES && c.blockSize == SIZES[i] > 0
    ensures Regions(regions[c.blocks := CHUNK_SIZE])
    ensures Chunks(chunks + [c], classes + [i], regions[c.blocks := CHUNK_SIZE])
  {
    var regions' := regions[c.blocks := CHUNK_SIZE];
    assert c.blocks !in regions;
    forall x | 0 <= x < |chunks| ensures chunks[x].blocks != c.blocks && IsChunk(chunks[x], classes[x], regions') {
      assert IsChunk(chunks[x], classes[x], regions);
    }
  }

  lemma PlacesGrow(chunks: seq<Chunk>, place: map<Address, Place>, c: Chunk)
    requires Places(chunks, place) && c.blockSize > 0
    requires forall a :: a in place ==> !(c.blocks <= a < c.blocks + CHUNK_SIZE)
    ensures var place' := PlacesOf(place, c, |chunks|, Blocks(c.blockSize));
      && Places(chunks + [c], place') && (forall a :: a in place ==> a in place' && place'[a] == place[a])
  {
    var n, chunks' := Blocks(c.blockSize), chunks + [c];
    var place' := PlacesOf(place, c, |chunks|, n);
    PlacesOfChunk(place, c, |chunks|, n);
    forall k | 0 <= k < n ensures c.blocks <= BlockAt(c, k) < c.blocks + CHUNK_SIZE { BlockInside(c, k); }
    forall a | a in place' ensures IsPlace(chunks', place'[a]) && a == AddressOf(chunks', place'[a]) {
      if a in place { assert IsPlace(chunks, place[a]) && AddressOf(chunks, place[a]) == a; }
    }
    forall p | IsPlace(chunks', p) ensures AddressOf(chunks', p) in place' && place'[AddressOf(chunks', p)] == p {
      if p.chunk < |chunks| { assert IsPlace(chunks, p) && AddressOf(chunks, p) in place; }
    }
  }

  /** Live blocks stay live, and the first block of the new chunk becomes one. */
  lemma LiveGrow(lookup: seq<int>, chunks: seq<Chunk>, classes: seq<int>, place: map<Address, Place>,
                 regions: map<Address, int>, live: map<Address, int>, c: Chunk, size: int)
    requires Table(lookup) && Places(chunks, place) && |chunks| == |classes|
      && Live(lookup, classes, place, regions, live)
    requires Regions(regions) && FreshRegion(regions, c.blocks, CHUNK_SIZE)
    requires 0 < size <= MAX_BLOCK_SIZE && c.blockSize == SIZES[lookup[size]] > 0 && Blocks(c.blockSize) >= 25
    requires forall a :: a in place ==> !(c.blocks <= a < c.blocks + CHUNK_SIZE)
    ensures var place' := PlacesOf(place, c, |chunks|, Blocks(c.blockSize));
      Live(lookup, classes + [lookup[size]], place', regions[c.blocks := CHUNK_SIZE], live[c.blocks := size])
    ensures forall a :: a in live ==> !(c.blocks <= a < c.blocks + CHUNK_SIZE)
  {
    var n, classes' := Blocks(c.blockSize), classes + [lookup[size]];
    var place', regions' := PlacesOf(place, c, |chunks|, n), regions[c.blocks := CHUNK_SIZE];
    PlacesOfChunk(place, c, |chunks|, n);
    forall k | 0 <= k < n ensures c.blocks <= BlockAt(c, k) < c.blocks + CHUNK_SIZE { BlockInside(c, k); }
    assert BlockAt(c, 0) == c.blocks;
    forall a | a in live
      ensures IsLive(lookup, classes', place', regions', a, live[a]) && !(c.blocks <= a < c.blocks + CHUNK_SIZE)
    {
      assert IsLive(lookup, classes, place, regions, a, live[a]);
    }
  }

  /** Which blocks there are with the new chunk. */
  lemma BlocksGrow(classes: seq<int>, place: map<Address, Place>, c: Chunk, i: int, j: int, a: Address)
    requires c.blockSize > 0 && Blocks(c.blockSize) >= 25 && (a in place ==> 0 <= place[a].chunk < |classes|)
    requires forall b :: b in place ==> !(c.blocks <= b < c.blocks + CHUNK_SIZE)
    ensures var place' := PlacesOf(place, c, |classes|, Blocks(c.blockSize));
      IsBlock(classes + [i], place', a, j) <==>
      IsBlock(classes, place, a, j) || (j == i && (a == c.blocks || a in BlocksFrom(c, 1)))
    ensures a in BlocksFrom(c, 1) ==> a != c.blocks
    ensures a in place ==> a != c.blocks && a !in BlocksFrom(c, 1)
  {
    var n := Blocks(c.blockSize);
    var rest := BlocksFrom(c, 1);
    PlacesOfChunk(place, c, |classes|, n);
    forall k | 0 <= k < n ensures c.blocks <= BlockAt(c, k) < c.blocks + CHUNK_SIZE { BlockInside(c, k); }
    forall k | 0 < k < n ensures BlockAt(c, k) != c.blocks { BlocksApart(c, 0, k); }
    assert BlockAt(c, 0) == c.blocks;
    forall k | 0 < k < n ensures BlockAt(c, k) in rest { assert rest[k - 1] == BlockAt(c, k); }
    if a in rest {
      var k :| 0 <= k < |rest| && rest[k] == a;
      assert a == BlockAt(c, k + 1);
    }
  }

  /** The other blocks of the new chunk become the free list of their class. */
  lemma PartitionGrow(chunks: seq<Chunk>, classes: seq<int>, place: map<Address, Place>, free: seq<seq<Address>>,
                      live: map<Address, int>, c: Chunk, i: int, size: int)
    requires Places(chunks, place) && |chunks| == |classes| && Partition(classes, place, free, live)
    requires 0 <= i < BLOCK_SIZES && free[i] == [] && c.blockSize == SIZES[i] > 0 && Blocks(c.blockSize) >= 25
    requires forall a :: a in place ==> !(c.blocks <= a < c.blocks + CHUNK_SIZE)
    requires forall a :: a in live ==> !(c.blocks <= a < c.blocks + CHUNK_SIZE)
    ensures var place' := PlacesOf(place, c, |chunks|, Blocks(c.blockSize));
      Partition(classes + [i], place', free[i := BlocksFrom(c, 1)], live[c.blocks := size])
  {
    var classes', live' := classes + [i], live[c.blocks := size];
    var place', free' := PlacesOf(place, c, |chunks|, Blocks(c.blockSize)), free[i := BlocksFrom(c, 1)];
    PlacesHaveChunks(chunks, place);
    NewBlocksNotLive(c, live);
    hide PlacesOf, BlocksFrom, Places, Blocks;
    forall j, a | 0 <= j < BLOCK_SIZES && a in free'[j] ensures IsBlock(classes', place', a, j) && a !in live' {
      BlocksGrow(classes, place, c, i, j, a);
      if j != i { assert IsBlock(classes, place, a, j); }
    }
    forall j, a | 0 <= j < BLOCK_SIZES && IsBlock(classes', place', a, j) && a !in live' ensures a in free'[j] {
      BlocksGrow(classes, place, c, i, j, a);
    }
  }

  lemma PlacesHaveChunks(chunks: seq<Chunk>, place: map<Address, Place>)
    requires Places(chunks, place)
    ensures forall a :: a in place ==> 0 <= place[a].chunk < |chunks|
  {
  }

  lemma NewBlocksNotLive(c: Chunk, live: map<Address, int>)
    requires c.blockSize > 0 && Blocks(c.blockSize) >= 25
    requires forall a :: a in live ==> !(c.blocks <= a < c.blocks + CHUNK_SIZE)
    ensures forall a :: a in BlocksFrom(c, 1) ==> a !in live
  {
    forall a | a in BlocksFrom(c, 1) ensures a !in live {
      var k :| 0 <= k < |BlocksFrom(c, 1)| && BlocksFrom(c, 1)[k] == a;
      BlockInside(c, k + 1);
    }
  }

  // ----- taking a block and giving it back

  lemma Taken(lookup: seq<int>, classes: seq<int>, place: map<Address, Place>, regions: map<Address, int>,
              free: seq<seq<Address>>, live: map<Address, int>, size: int)
    requires Table(lookup) && 0 < size <= MAX_BLOCK_SIZE && Live(lookup, classes, place, regions, live)
    requires Partition(classes, place, free, live) && free[lookup[size]] != [] && Distinct(free[lookup[size]])
    requires free[lookup[size]][0] > 0
    ensures var i := lookup[size];
      var r := free[i][0];
      && r !in live && Live(lookup, classes, place, regions, live[r := size])
      && Partition(classes, place, free[i := free[i][1..]], live[r := size])
  {
    var i := lookup[size];
    var r := free[i][0];
    assert r in free[i] && free[i] == [r] + free[i][1..];
    forall j, a | 0 <= j < BLOCK_SIZES && a in free[i := free[i][1..]][j]
      ensures IsBlock(classes, place, a, j) && a !in live[r := size]
    {
      assert a in free[j];
      if a == r { assert IsBlock(classes, place, r, i); }
    }
  }

  lemma GivenBack(lookup: seq<int>, classes: seq<int>, place: map<Address, Place>, regions: map<Address, int>,
                  free: seq<seq<Address>>, live: map<Address, int>, p: Address)
    requires Table(lookup) && Live(lookup, classes, place, regions, live) && p in live && live[p] <= MAX_BLOCK_SIZE
    requires Partition(classes, place, free, live)
    ensures IsLive(lookup, classes, place, regions, p, live[p])
    ensures var i := lookup[live[p]];
      && (forall j :: 0 <= j < BLOCK_SIZES ==> p !in free[j])
      && Live(lookup, classes, place, regions, live - {p})
      && Partition(classes, place, free[i := [p] + free[i]], live - {p})
  {
    assert IsLive(lookup, classes, place, regions, p, live[p]);
    var i, live' := lookup[live[p]], live - {p};
    var free' := free[i := [p] + free[i]];
    forall j, a | 0 <= j < BLOCK_SIZES && a in free'[j] ensures IsBlock(classes, place, a, j) && a !in live' {
      if a != p { assert a in free[j]; }
    }
    forall j, a | 0 <= j < BLOCK_SIZES && IsBlock(classes, place, a, j) && a !in live' ensures a in free'[j] {
      if a != p { assert a !in live && a in free[j]; }
    }
  }

  /** A region that is given back was a live block of its own. */
  lemma RegionGone(lookup: seq<int>, chunks: seq<Chunk>, classes: seq<int>, place: map<Address, Place>,
                   regions: map<Address, int>, free: seq<seq<Address>>, live: map<Address, int>, p: Address)
    requires Table(lookup) && Regions(regions) && Chunks(chunks, classes, regions) && Places(chunks, place)
    requires Live(lookup, classes, place, regions, live) && Partition(classes, place, free, live)
    requires p in live && live[p] > MAX_BLOCK_SIZE
    ensures p in regions && regions[p] == live[p] && Regions(regions - {p}) && Chunks(chunks, classes, regions - {p})
    ensures Live(lookup, classes, place, regions - {p}, live - {p}) && Partition(classes, place, free, live - {p})
  {
    assert IsLive(lookup, classes, place, regions, p, live[p]);
    forall c | 0 <= c < |chunks| ensures IsChunk(chunks[c], classes[c], regions - {p}) {
      FirstBlock(chunks, classes, regions, place, c);
    }
    forall a | a in live && a != p ensures IsLive(lookup, classes, place, regions - {p}, a, live[a]) {
      assert IsLive(lookup, classes, place, regions, a, live[a]);
    }
    assert forall i, a :: 0 <= i < BLOCK_SIZES && IsBlock(classes, place, a, i) ==> a != p;
  }

  lemma FirstBlock(chunks: seq<Chunk>, classes: seq<int>, regions: map<Address, int>,
    place: map<Address, Place>, c: int)
    requires Chunks(chunks, classes, regions) && Places(chunks, place) && 0 <= c < |chunks|
    ensures IsChunk(chunks[c], classes[c], regions)
    ensures chunks[c].blocks in place && place[chunks[c].blocks] == Place(c, 0)
  {
    assert IsChunk(chunks[c], classes[c], regions);
    ManyBlocks(classes[c]);
    assert IsPlace(chunks, Place(c, 0)) && AddressOf(chunks, Place(c, 0)) == chunks[c].blocks;
  }

  lemma LiveIsSomewhere(lookup: seq<int>, classes: seq<int>, place: map<Address, Place>, regions: map<Address, int>,
                        live: map<Address, int>)
    requires Live(lookup, classes, place, regions, live)
    ensures forall a :: a in live ==> a in place || a in regions
  {
    forall a | a in live ensures a in place || a in regions {
      assert IsLive(lookup, classes, place, regions, a, live[a]);
    }
  }

  /** A region of its own becomes a live block. */
  lemma RegionTaken(lookup: seq<int>, chunks: seq<Chunk>, classes: seq<int>, place: map<Address, Place>,
                    regions: map<Address, int>, free: seq<seq<Address>>, live: map<Address, int>, p: Address, size: int)
    requires Table(lookup) && Regions(regions) && Chunks(chunks, classes, regions) && Places(chunks, place)
    requires Live(lookup, classes, place, regions, live) && Partition(classes, place, free, live)
    requires size > MAX_BLOCK_SIZE && FreshRegion(regions, p, size)
    ensures p !in live && Regions(regions[p := size]) && Chunks(chunks, classes, regions[p := size])
    ensures Live(lookup, classes, place, regions[p := size], live[p := size])
    ensures Partition(classes, place, free, live[p := size])
  {
    NotABlock(chunks, classes, regions, place, p, size);
    LiveIsSomewhere(lookup, classes, place, regions, live);
    hide Places;
    forall c | 0 <= c < |chunks| ensures IsChunk(chunks[c], classes[c], regions[p := size]) {
      assert IsChunk(chunks[c], classes[c], regions);
    }
    hide Chunks, Partition;
    forall a | a in live ensures IsLive(lookup, classes, place, regions[p := size], a, live[a]) {
      assert IsLive(lookup, classes, place, regions, a, live[a]);
    }
    NotAffected(classes, place, free, live, p, size);
  }

  lemma NotABlock(chunks: seq<Chunk>, classes: seq<int>, regions: map<Address, int>,
    place: map<Address, Place>, p: Address, size: int)
    requires Regions(regions) && Chunks(chunks, classes, regions) && Places(chunks, place)
      && FreshRegion(regions, p, size)
    ensures p !in place && p !in regions
  {
    if p in place { OwnRegion(chunks, classes, regions, place, p); }
  }

  lemma NotAffected(classes: seq<int>, place: map<Address, Place>, free: seq<seq<Address>>,
    live: map<Address, int>, p: Address, size: int)
    requires Partition(classes, place, free, live) && p !in place
    ensures Partition(classes, place, free, live[p := size])
  {
    var live' := live[p := size];
    forall i, a | 0 <= i < BLOCK_SIZES && a in free[i] ensures IsBlock(classes, place, a, i) && a !in live' {}
    forall i, a | 0 <= i < BLOCK_SIZES && IsBlock(classes, place, a, i) && a !in live' ensures a in free[i] {
      assert a !in live;
    }
  }

  /** A block lies in the region of its chunk. */
  lemma OwnRegion(chunks: seq<Chunk>, classes: seq<int>, regions: map<Address, int>,
    place: map<Address, Place>, a: Address)
    requires Chunks(chunks, classes, regions) && Places(chunks, place) && a in place
    ensures IsPlace(chunks, place[a])
    ensures var c := chunks[place[a].chunk];
      && IsChunk(c, classes[place[a].chunk], regions) && c.blocks <= a && a + c.blockSize <= c.blocks + CHUNK_SIZE
  {
    var c := place[a].chunk;
    assert IsPlace(chunks, place[a]) && IsChunk(chunks[c], classes[c], regions);
    BlockInside(chunks[c], place[a].k);
  }

  // ----- the bytes of live blocks

  ghost function RegionOf(chunks: seq<Chunk>, place: map<Address, Place>, a: Address): Address {
    if a in place && 0 <= place[a].chunk < |chunks| then chunks[place[a].chunk].blocks else a
  }

  lemma InItsRegion(lookup: seq<int>, chunks: seq<Chunk>, classes: seq<int>, place: map<Address, Place>,
                    regions: map<Address, int>, live: map<Address, int>, a: Address)
    requires Table(lookup) && Chunks(chunks, classes, regions) && Places(chunks, place)
    requires Live(lookup, classes, place, regions, live) && a in live
    ensures var r := RegionOf(chunks, place, a); r in regions && r <= a && a + live[a] <= r + regions[r]
    ensures a in place ==> 0 <= place[a].chunk < |chunks| && live[a] <= chunks[place[a].chunk].blockSize
  {
    assert IsLive(lookup, classes, place, regions, a, live[a]);
    if a in place {
      OwnRegion(chunks, classes, regions, place, a);
      assert Fits(live[a], lookup[live[a]]);
    }
  }

  lemma SameChunk(chunks: seq<Chunk>, place: map<Address, Place>, a: Address, b: Address)
    requires Places(chunks, place) && a in place && b in place && a != b && place[a].chunk == place[b].chunk
    ensures 0 <= place[a].chunk < |chunks|
    ensures var n := chunks[place[a].chunk].blockSize; Apart(a, n, b, n)
  {
    assert IsPlace(chunks, place[a]) && IsPlace(chunks, place[b]);
    var c := chunks[place[a].chunk];
    if place[a].k < place[b].k {
      BlocksApart(c, place[a].k, place[b].k);
    } else {
      BlocksApart(c, place[b].k, place[a].k);
    }
  }

  // ----- the allocator

  class Allocator {
    const lookup: seq<int>
    var allocMap: map<Address, int>
    var allocSizeRecord: int
    var chunks: seq<Chunk>
    var freeLists: seq<Address>
    var memory: map<Address, Address>
    ghost var classes: seq<int>
    ghost var regions: map<Address, int>
    ghost var place: map<Address, Place>
    ghost var free: seq<seq<Address>>

    /** The memory is carved up among the free lists and the blocks in `live`. */
    ghost predicate Shape(live: map<Address, int>)
      reads this
    {
      && Table(lookup) && Regions(regions) && Chunks(chunks, classes, regions) && Places(chunks, place)
      && Lists(freeLists, memory, free) && Partition(classes, place, free, live)
      && Live(lookup, classes, place, regions, live)
    }

    ghost predicate Valid()
      reads this
    {
      Shape(allocMap) && allocSizeRecord == Sum(allocMap)
    }

    constructor ()
      ensures Valid() && allocMap == map[] && regions == map[]
    {
      var table := BuildLookup();
      lookup := table[..];
      allocMap, allocSizeRecord, chunks := map[], 0, [];
      freeLists := seq(BLOCK_SIZES, _ => 0);
      memory, classes, regions, place := map[], [], map[], map[];
      free := seq(BLOCK_SIZES, _ => []);
    }

    /** In every state the operations reach: each block carved from a chunk is live, or it is exactly once on the
        free list of its class and on no other; and the record is the sum of the live sizes. */
    lemma CarvedBlocks(c: int, k: int)
      requires Valid() && 0 <= c < |chunks| && chunks[c].blockSize > 0 && 0 <= k < Blocks(chunks[c].blockSize)
      ensures |classes| == |chunks| && |free| == BLOCK_SIZES && 0 <= classes[c] < BLOCK_SIZES
      ensures chunks[c].blockSize == SIZES[classes[c]] && allocSizeRecord == Sum(allocMap)
      ensures var a, i := BlockAt(chunks[c], k), classes[c];
        && (a in allocMap <==> a !in free[i]) && (forall j :: 0 <= j < BLOCK_SIZES && a in free[j] ==> j == i)
        && (forall m, n :: 0 <= m < n < |free[i]| ==> free[i][m] != free[i][n])
    {
      hide Sum, Chain, Live, Regions;
      assert IsPlace(chunks, Place(c, k)) && AddressOf(chunks, Place(c, k)) == BlockAt(chunks[c], k);
    }

    /** In every state the operations reach: no two live blocks share a byte, and a block is at least as large
        as was asked for. */
    lemma LiveBlocksApart(a: Address, b: Address)
      requires Valid() && a in allocMap && b in allocMap && a != b
      ensures Apart(a, allocMap[a], b, allocMap[b])
      ensures a in place ==> 0 <= place[a].chunk < |chunks| && allocMap[a] <= chunks[place[a].chunk].blockSize
    {
      InItsRegion(lookup, chunks, classes, place, regions, allocMap, a);
      InItsRegion(lookup, chunks, classes, place, regions, allocMap, b);
      hide Live, Partition, Lists, Table, Places, Chunks;
      if a in place { FirstBlock(chunks, classes, regions, place, place[a].chunk); }
      if b in place { FirstBlock(chunks, classes, regions, place, place[b].chunk); }
      if a in place && b in place && place[a].chunk == place[b].chunk { SameChunk(chunks, place, a, b); }
    }

    /** A block on a free list, which holds an address in its first bytes, has none of them in a live block. */
    lemma FreeIsElsewhere(a: Address, i: int, b: Address)
      requires Valid() && a in allocMap && 0 <= i < BLOCK_SIZES && b in free[i]
      ensures Outside(b, a, allocMap[a])
    {
      assert IsBlock(classes, place, b, i) && b !in allocMap;
      InItsRegion(lookup, chunks, classes, place, regions, allocMap, a);
      OwnRegion(chunks, classes, regions, place, b);
      FirstBlock(chunks, classes, regions, place, place[b].chunk);
      ManyBlocks(i);
      hide Live, Partition, Lists, Table, Places, Chunks;
      if a in place { FirstBlock(chunks, classes, regions, place, place[a].chunk); }
      if a in place && place[a].chunk == place[b].chunk { SameChunk(chunks, place, a, b); }
    }

    /** What the user writes into a live block, wherever in it, leaves every free list as it is. */
    method UserWrites(a: Address, after: map<Address, Address>)
      requires Valid() && a in allocMap
      requires forall c :: Outside(c, a, allocMap[a]) ==>
        (c in after <==> c in memory) && (c in memory ==> after[c] == memory[c])
      modifies `memory
      ensures Valid() && memory == after
    {
      ghost var before := memory;
      forall i, b | 0 <= i < BLOCK_SIZES && b in free[i] ensures Outside(b, a, allocMap[a]) {
        FreeIsElsewhere(a, i, b);
      }
      memory := after;
      hide Outside, Live, Partition, Places, Chunks, Regions, Table, Sum;
      forall i | 0 <= i < BLOCK_SIZES ensures Chain(memory, freeLists[i], free[i]) {
        ChainElsewhere(before, memory, freeLists[i], free[i]);
      }
    }

    /** allocate; p is what malloc answers if it is asked, for a chunk or for a block that is too large. */
    method Allocate(size: int, p: Address) returns (r: Address)
      requires Valid() && size >= 0
      requires FreshRegion(regions, p, if size > MAX_BLOCK_SIZE then size else CHUNK_SIZE)
      modifies this
      ensures Valid()
      ensures if size == 0 then r == 0 && allocMap == old(allocMap)
              else r > 0 && r !in old(allocMap) && allocMap == old(allocMap)[r := size]
      ensures size > MAX_BLOCK_SIZE ==> r == p && regions == old(regions)[p := size]
      ensures |old(free)| == BLOCK_SIZES && (0 < size <= MAX_BLOCK_SIZE ==> 0 <= lookup[size] < BLOCK_SIZES)
      ensures 0 < size <= MAX_BLOCK_SIZE && old(free)[lookup[size]] != [] ==>
        r == old(free)[lookup[size]][0] && regions == old(regions)
      ensures 0 < size <= MAX_BLOCK_SIZE && old(free)[lookup[size]] != [] ==>
        free == old(free)[lookup[size] := old(free)[lookup[size]][1..]]
      ensures 0 < size <= MAX_BLOCK_SIZE && old(free)[lookup[size]] == [] ==>
        r == p && regions == old(regions)[p := CHUNK_SIZE] && |chunks| == |old(chunks)| + 1
    {
      hide Sum, Chain;
      allocSizeRecord := allocSizeRecord + size;
      if size == 0 {
        allocSizeRecord := allocSizeRecord - size;
        return 0;
      }
      if size > MAX_BLOCK_SIZE {
        r := p;
        RegionTaken(lookup, chunks, classes, place, regions, free, allocMap, p, size);
        regions := regions[p := size];
      } else {
        var index := lookup[size];
        ListHead(index);
        if freeLists[index] != 0 {
          r := TakeBlock(size);
        } else {
          r := NewChunk(size, p);
        }
      }
      SumWith(allocMap, r, size);
      allocMap := allocMap[r := size];
    }

    lemma ListHead(i: int)
      requires Lists(freeLists, memory, free) && 0 <= i < BLOCK_SIZES
      ensures |freeLists| == |free| == BLOCK_SIZES && (freeLists[i] == 0 <==> free[i] == [])
      ensures free[i] != [] ==> freeLists[i] == free[i][0] && freeLists[i] in memory
    {
    }

    method TakeBlock(size: int) returns (r: Address)
      requires Shape(allocMap) && 0 < size <= MAX_BLOCK_SIZE && free[lookup[size]] != []
      modifies `freeLists, `free
      ensures r > 0 && r !in allocMap && Shape(allocMap[r := size])
      ensures r == old(free)[lookup[size]][0] && free == old(free)[lookup[size] := old(free)[lookup[size]][1..]]
    {
      hide Partition, Live, Places, Chunks, Regions;
      var i := lookup[size];
      BlockIsPositive(i);
      Taken(lookup, classes, place, regions, free, allocMap, size);
      r := freeLists[i];
      freeLists := freeLists[i := memory[r]];
      free := free[i := free[i][1..]];
    }

    lemma BlockIsPositive(i: int)
      requires Shape(allocMap) && 0 <= i < BLOCK_SIZES && free[i] != []
      ensures free[i][0] > 0
    {
      assert free[i][0] in free[i] && IsBlock(classes, place, free[i][0], i);
      OwnRegion(chunks, classes, regions, place, free[i][0]);
    }

    method NewChunk(size: int, p: Address) returns (r: Address)
      requires Shape(allocMap) && 0 < size <= MAX_BLOCK_SIZE && free[lookup[size]] == []
        && FreshRegion(regions, p, CHUNK_SIZE)
      modifies `chunks, `freeLists, `memory, `classes, `regions, `place, `free
      ensures r == p > 0 && r !in allocMap && Shape(allocMap[r := size])
      ensures regions == old(regions)[p := CHUNK_SIZE] && |chunks| == |old(chunks)| + 1
    {
      hide Partition, Live, Places, Chunks, Regions, Lists;
      var index := lookup[size];
      var chunk := Chunk(SIZES[index], p);
      ManyBlocks(index);
      NothingInside(p);
      ChunksGrow(chunks, classes, regions, chunk, index);
      PlacesGrow(chunks, place, chunk);
      LiveGrow(lookup, chunks, classes, place, regions, allocMap, chunk, size);
      PartitionGrow(chunks, classes, place, free, allocMap, chunk, index, size);
      ListBlocks(chunk, index);
      place := PlacesOf(place, chunk, |chunks|, Blocks(chunk.blockSize));
      chunks, classes, regions := chunks + [chunk], classes + [index], regions[p := CHUNK_SIZE];
      r := p;
    }

    lemma NothingInside(p: Address)
      requires Shape(allocMap) && FreshRegion(regions, p, CHUNK_SIZE)
      ensures |chunks| == |classes|
      ensures forall a :: a in place ==> !(p <= a < p + CHUNK_SIZE)
      ensures forall j, a :: 0 <= j < BLOCK_SIZES && a in free[j] ==> !(p <= a < p + CHUNK_SIZE)
    {
      forall a | a in place ensures !(p <= a < p + CHUNK_SIZE) {
        NoBlockInside(chunks, classes, regions, place, p, a);
      }
      forall j, a | 0 <= j < BLOCK_SIZES && a in free[j] ensures !(p <= a < p + CHUNK_SIZE) {
        assert IsBlock(classes, place, a, j);
      }
    }

    /** Carves the chunk, and puts all of its blocks but the first on the free list, which was empty. */
    method ListBlocks(c: Chunk, i: int)
      requires Lists(freeLists, memory, free) && 0 <= i < BLOCK_SIZES && c.blockSize == SIZES[i] > 0 && c.blocks > 0
      requires 1 <= Blocks(c.blockSize)
      requires forall j, a :: 0 <= j < BLOCK_SIZES && a in free[j] ==> !(c.blocks <= a < c.blocks + CHUNK_SIZE)
      modifies `memory, `freeLists, `free
      ensures Lists(freeLists, memory, free) && free == old(free)[i := BlocksFrom(c, 1)]
    {
      ManyBlocks(i);
      ghost var before := memory;
      Carve(c);
      assert BlockAt(c, 0) == c.blocks && LinkedAt(memory, c, 0);
      ChainCarved(memory, c, 1);
      BlocksDiffer(c, 1);
      forall j | 0 <= j < BLOCK_SIZES && j != i ensures Chain(memory, freeLists[j], free[j]) {
        ChainElsewhere(before, memory, freeLists[j], free[j]);
      }
      freeLists := freeLists[i := memory[c.blocks]];
      free := free[i := BlocksFrom(c, 1)];
    }

    /** The loop that links the blocks of a new chunk. */
    method Carve(c: Chunk)
      requires c.blockSize > 0 && Blocks(c.blockSize) >= 25
      modifies `memory
      ensures forall j :: 0 <= j < Blocks(c.blockSize) ==> LinkedAt(memory, c, j)
      ensures forall a :: a in old(memory) && !(c.blocks <= a < c.blocks + CHUNK_SIZE) ==>
        a in memory && memory[a] == old(memory)[a]
    {
      var n := Blocks(c.blockSize);
      for i := 0 to n - 1
        invariant forall j :: 0 <= j < i ==> LinkedAt(memory, c, j)
        invariant forall a :: a in old(memory) && !(c.blocks <= a < c.blocks + CHUNK_SIZE) ==>
          a in memory && memory[a] == old(memory)[a]
      {
        BlockInside(c, i);
        ghost var before := memory;
        memory := memory[BlockAt(c, i) := BlockAt(c, i + 1)];
        LinkOne(before, memory, c, i);
      }
      BlockInside(c, n - 1);
      ghost var before := memory;
      memory := memory[BlockAt(c, n - 1) := 0];
      LinkOne(before, memory, c, n - 1);
    }

    /** Free with the size that was asked for. Nothing happens to the null pointer. */
    method Free(p: Address, size: int)
      requires Valid() && (p == 0 || (p in allocMap && allocMap[p] == size))
      modifies this
      ensures Valid() && allocMap == old(allocMap) - {p}
      ensures |old(free)| == BLOCK_SIZES
        && (p != 0 && size <= MAX_BLOCK_SIZE ==> size > 0 && 0 <= lookup[size] < BLOCK_SIZES)
      ensures p != 0 && size <= MAX_BLOCK_SIZE ==> free == old(free)[lookup[size] := [p] + old(free)[lookup[size]]]
      ensures p != 0 && size <= MAX_BLOCK_SIZE ==> regions == old(regions)
      ensures p != 0 && size > MAX_BLOCK_SIZE ==> free == old(free) && regions == old(regions) - {p}
    {
      hide Sum, Chain, Partition, Live, Places, Chunks, Regions;
      ghost var live := allocMap;
      if p != 0 { SumWithout(allocMap, p); } else { LiveIsPositive(allocMap); }
      allocMap := allocMap - {p};
      assert p == 0 ==> allocMap == live;
      Release(p, size, live);
    }

    lemma LiveIsPositive(live: map<Address, int>)
      requires Shape(live)
      ensures forall a :: a in live ==> a > 0
    {
      forall a | a in live ensures a > 0 {
        assert IsLive(lookup, classes, place, regions, a, live[a]);
      }
    }

    /** free */
    method Release(p: Address, size: int, ghost live: map<Address, int>)
      requires Shape(live) && (p == 0 || (p in live && live[p] == size))
      modifies `allocSizeRecord, `freeLists, `memory, `free, `regions
      ensures p == 0 ==> allocSizeRecord == old(allocSizeRecord) && Shape(live)
      ensures p != 0 ==> allocSizeRecord == old(allocSizeRecord) - size && Shape(live - {p})
      ensures p == 0 ==> free == old(free) && regions == old(regions)
      ensures p != 0 && size <= MAX_BLOCK_SIZE ==> size > 0 && regions == old(regions)
      ensures p != 0 && size <= MAX_BLOCK_SIZE ==> free == old(free)[lookup[size] := [p] + old(free)[lookup[size]]]
      ensures p != 0 && size > MAX_BLOCK_SIZE ==> free == old(free) && regions == old(regions) - {p}
    {
      hide Partition, Places, Chunks, Regions;
      allocSizeRecord := allocSizeRecord - size;
      if size == 0 || p == 0 {
        allocSizeRecord := allocSizeRecord + size;
        return;
      }
      if size > MAX_BLOCK_SIZE {
        RegionGone(lookup, chunks, classes, place, regions, free, live, p);
        regions := regions - {p};
        return;
      }
      GivenBack(lookup, classes, place, regions, free, live, p);
      PutBack(p, lookup[size]);
    }

    method PutBack(p: Address, index: int)
      requires Lists(freeLists, memory, free) && 0 <= index < BLOCK_SIZES && p > 0
      requires forall j :: 0 <= j < BLOCK_SIZES ==> p !in free[j]
      modifies `freeLists, `memory, `free
      ensures Lists(freeLists, memory, free) && free == old(free)[index := [p] + old(free)[index]]
    {
      ghost var before := memory;
      memory := memory[p := freeLists[index]];
      forall j | 0 <= j < BLOCK_SIZES ensures Chain(memory, freeLists[j], free[j]) {
        ChainElsewhere(before, memory, freeLists[j], free[j]);
      }
      freeLists := freeLists[index := p];
      assert ([p] + free[index])[1..] == free[index];
      free := free[index := [p] + free[index]];
    }

    /** Frees every live block, in whatever order the map gives them. */
    method ClearFree()
      requires Valid()
      modifies this
      ensures Valid() && allocMap == map[] && allocSizeRecord == 0
    {
      hide Chain, Partition, Live, Places, Chunks, Regions, Lists, Table;
      LiveIsPositive(allocMap);
      var left, keys := allocMap, allocMap.Keys;
      while keys != {}
        invariant keys == left.Keys && Shape(left) && allocSizeRecord == Sum(left)
        invariant forall a :: a in left ==> a > 0
        decreases keys
      {
        var p :| p in keys;
        SumWithout(left, p);
        Release(p, left[p], left);
        left, keys := left - {p}, keys - {p};
      }
      assert left == map[];
      allocMap := map[];
    }
  }
}

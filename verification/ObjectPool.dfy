/** The pool of equal chunks: pages that are allocated and released whole, and one doubly linked list of all
    free chunks of all pages. */
module ObjectPool {
  import opened Wrappers


  class Chunk {
    const parent: Page
    var prev: Chunk?
    var next: Chunk?
    var inUse: bool

    constructor (parent: Page)
      ensures this.parent == parent && prev == null && next == null && !inUse
    {
      this.parent := parent;
      prev, next, inUse := null, null, false;
    }
  }

  class Page {
    var count: int
    var prev: Page?
    var next: Page?
    var chunks: seq<Chunk>

    constructor ()
      ensures prev == null && next == null && count == 0 && chunks == []
    {
      prev, next, count, chunks := null, null, 0, [];
    }
  }

  ghost function NthChunk(s: seq<Chunk>, k: int): Chunk? {
    if 0 <= k < |s| then s[k] else null
  }

  ghost function NthPage(s: seq<Page>, k: int): Page? {
    if 0 <= k < |s| then s[k] else null
  }

  ghost function UsedOf(p: Page, used: set<Chunk>): set<Chunk> {
    set c | c in used && c.parent == p
  }

  class Pool {
    const chunkCount: nat
    const chunkSize: nat
    var head: Chunk?
    var listHead: Page?
    var pageCount: int
    ghost var free: seq<Chunk>
    ghost var pages: seq<Page>
    ghost var chunks: set<Chunk>
    ghost var used: set<Chunk>

    ghost predicate FreeList()
      reads this`head, this`free, free`prev, free`next
    {
      && (head == if free == [] then null else free[0])
      && (free != [] ==> free[0].prev == null && free[|free| - 1].next == null)
      && (forall i {:trigger free[i].next} :: 0 <= i < |free| - 1 ==> free[i].next == free[i + 1])
      && (forall i {:trigger free[i].prev} :: 1 <= i < |free| ==> free[i].prev == free[i - 1])
      && Distinct(free)
    }

    ghost predicate PageList()
      reads this`listHead, this`pages, pages`prev, pages`next
    {
      && (listHead == if pages == [] then null else pages[0])
      && (pages != [] ==> pages[0].prev == null && pages[|pages| - 1].next == null)
      && (forall i {:trigger pages[i].next} :: 0 <= i < |pages| - 1 ==> pages[i].next == pages[i + 1])
      && (forall i {:trigger pages[i].prev} :: 1 <= i < |pages| ==> pages[i].prev == pages[i - 1])
      && Distinct(pages)
    }

    ghost function ChunksIn(p: Page): set<Chunk>
      reads p`chunks
    {
      Members(p.chunks)
    }

    ghost predicate Whole(p: Page)
      reads this`chunks, p`chunks
    {
      |p.chunks| == chunkSize && Distinct(p.chunks) && forall i :: 0 <= i < |p.chunks| ==>
        p.chunks[i].parent == p && p.chunks[i] in chunks
    }

    /** The pages partition the chunks. */
    ghost predicate Paged(ps: seq<Page>)
      reads this`chunks, ps`chunks
    {
      && (forall p :: p in ps ==> Whole(p))
      && (forall c :: c in chunks ==> c.parent in ps && c in c.parent.chunks)
    }

    /** A chunk is on the free list, or it is in use and on no list, or else it is loose: not in use any
        more, and on no list yet. */
    ghost predicate Listed(loose: set<Chunk>, used: set<Chunk>)
      reads this`chunks, this`free, chunks`inUse, chunks`prev, chunks`next
    {
      && used <= chunks && loose <= chunks && used !! loose
      && (forall c :: c in free ==> c in chunks && c !in used && c !in loose)
      && (forall c :: c in chunks && c !in used && c !in loose ==> c in free)
      && (forall c :: c in chunks ==> (c.inUse <==> c in used))
      && (forall c :: c in chunks && (c in used || c in loose) ==> c.prev == null && c.next == null)
    }

    ghost predicate Counted(ps: seq<Page>, used: set<Chunk>)
      reads ps`count
    {
      forall p :: p in ps ==> p.count == |UsedOf(p, used)|
    }

    ghost predicate Shape()
      reads this, free, pages, chunks
    {
      FreeList() && PageList() && Paged(pages) && Listed({}, used) && Counted(pages, used)
    }

    ghost predicate Valid()
      reads this, free, pages, chunks
    {
      Shape() && chunkSize > 0 && pageCount == |pages| >= chunkCount
    }

    // ----- the free list

    method Add(c: Chunk)
      requires FreeList() && c !in free && c.prev == null
      modifies this`head, this`free, c`next, free`prev
      ensures FreeList() && free == [c] + old(free) && c.prev == null
    {
      c.next := head;
      if head != null { head.prev := c; }
      head := c;
      free := [c] + free;
    }

    /** Takes a chunk off the list; one that is on no list stays on none. */
    method Remove(c: Chunk, ghost i: int)
      requires FreeList() && (if i < 0 then c !in free && c.prev == null && c.next == null
        else i < |free| && free[i] == c)
      modifies this`head, this`free, c`prev, c`next, free`prev, free`next
      ensures FreeList() && c.prev == null && c.next == null
      ensures free == if i < 0 then old(free) else old(free)[..i] + old(free)[i + 1..]
    {
      ghost var f := free;
      Bridge(c, i);
      if head == c { head := c.next; }
      c.next, c.prev := null, null;
      if i >= 0 {
        free := f[..i] + f[i + 1..];
        ChunksRelinked(f, i);
      }
    }

    /** The neighbours of the chunk, if it has any, are linked to each other. */
    method Bridge(c: Chunk, ghost i: int)
      requires FreeList() && (if i < 0 then c !in free && c.prev == null && c.next == null
        else i < |free| && free[i] == c)
      modifies free`prev, free`next
      ensures i < 0 ==> FreeList() && c.prev == null && c.next == null
      ensures i >= 0 ==> forall j {:trigger free[j].next} :: 0 <= j < |free| ==>
        free[j].next == NthChunk(free, if j + 1 == i then j + 2 else j + 1)
      ensures i >= 0 ==> forall j {:trigger free[j].prev} :: 0 <= j < |free| ==>
        free[j].prev == NthChunk(free, if j - 1 == i then j - 2 else j - 1)
    {
      assert i >= 0 ==> c.next == NthChunk(free, i + 1) && c.prev == NthChunk(free, i - 1);
      if c.next != null { c.next.prev := c.prev; }
      if c.prev != null { c.prev.next := c.next; }
    }

    /** The links of a list without its element i. */
    lemma ChunksRelinked(f: seq<Chunk>, i: nat)
      requires i < |f| && Distinct(f) && free == f[..i] + f[i + 1..] && head == NthChunk(f, if i > 0 then 0 else 1)
      requires forall j {:trigger f[j].next} :: 0 <= j < |f| && j != i ==>
        f[j].next == NthChunk(f, if j + 1 == i then j + 2 else j + 1)
      requires forall j {:trigger f[j].prev} :: 0 <= j < |f| && j != i ==>
        f[j].prev == NthChunk(f, if j - 1 == i then j - 2 else j - 1)
      ensures FreeList()
    {
      forall j | 0 <= j < |free| ensures free[j] == f[if j < i then j else j + 1] {}
    }

    // ----- pages

    /** Makes the chunks of a new page and puts them on the free list. */
    method ArrangeChunkList(page: Page)
      requires FreeList() && page.chunks == [] && forall c :: c in free ==> c.parent != page
      modifies this`head, this`free, free`prev, page`prev, page`next, page`count, page`chunks
      ensures FreeList() && page.prev == null && page.next == null && page.count == 0
      ensures |page.chunks| == chunkSize && Distinct(page.chunks)
      ensures forall i :: 0 <= i < chunkSize ==>
        var c := page.chunks[i]; fresh(c) && c.parent == page && !c.inUse
      ensures forall c :: c in free <==> c in old(free) || c in page.chunks
    {
      hide FreeList;
      page.prev, page.next, page.count := null, null, 0;
      for i := 0 to chunkSize
        invariant FreeList() && |page.chunks| == i && Distinct(page.chunks)
        invariant forall k :: 0 <= k < i ==> var c := page.chunks[k]; fresh(c) && c.parent == page && !c.inUse
        invariant forall c :: c in free <==> c in old(free) || c in page.chunks
        invariant page.prev == null && page.next == null && page.count == 0
        invariant forall c :: c in page.chunks ==> fresh(c)
      {
        var c := new Chunk(page);
        assert forall k :: 0 <= k < |free| ==> free[k] in free;
        Add(c);
        page.chunks := page.chunks + [c];
      }
    }

    method PushPage(page: Page)
      requires PageList() && page !in pages && page.prev == null
      modifies this`listHead, this`pages, page`next, pages`prev
      ensures PageList() && pages == [page] + old(pages)
    {
      page.next := listHead;
      if listHead != null { listHead.prev := page; }
      listHead := page;
      pages := [page] + pages;
    }

    method UnlinkPage(page: Page, ghost i: nat)
      requires PageList() && i < |pages| && pages[i] == page
      modifies this`listHead, this`pages, pages`prev, pages`next
      ensures PageList() && pages == old(pages)[..i] + old(pages)[i + 1..]
    {
      ghost var f := pages;
      assert page.next == NthPage(f, i + 1) && page.prev == NthPage(f, i - 1);
      if page.next != null { page.next.prev := page.prev; }
      if page.prev != null { page.prev.next := page.next; }
      if listHead == page { listHead := page.next; }
      pages := f[..i] + f[i + 1..];
      PagesRelinked(f, i);
    }

    lemma PagesRelinked(f: seq<Page>, i: nat)
      requires i < |f| && Distinct(f) && pages == f[..i] + f[i + 1..] && listHead == NthPage(f, if i > 0 then 0 else 1)
      requires forall j {:trigger f[j].next} :: 0 <= j < |f| && j != i ==>
        f[j].next == NthPage(f, if j + 1 == i then j + 2 else j + 1)
      requires forall j {:trigger f[j].prev} :: 0 <= j < |f| && j != i ==>
        f[j].prev == NthPage(f, if j - 1 == i then j - 2 else j - 1)
      ensures PageList()
    {
      forall j | 0 <= j < |pages| ensures pages[j] == f[if j < i then j else j + 1] {}
    }

    lemma NobodyYet(page: Page)
      requires page !in pages && Paged(pages) && Listed({}, used)
      ensures UsedOf(page, used) == {} && forall c :: c in chunks ==> c.parent != page
    {
    }

    /** The chunks of a new page become chunks of the pool. */
    ghost method Adopt(page: Page)
      requires forall c :: c in page.chunks ==> c !in chunks && !c.inUse
      requires used <= chunks && forall c :: c in chunks ==> (c.inUse <==> c in used)
      requires forall c :: c in free ==> (c in chunks && c !in used) || c in page.chunks
      requires forall c :: c in chunks && c !in used ==> c in free
      requires forall c :: c in page.chunks ==> c in free
      requires forall c :: c in used ==> c in chunks && c.prev == null && c.next == null
      modifies this`chunks
      ensures chunks == old(chunks) + ChunksIn(page) && Listed({}, used)
    {
      chunks := chunks + ChunksIn(page);
    }

    method NewPage() returns (page: Page)
      requires Shape()
      modifies this`head, this`free, this`chunks, free`prev
      ensures FreeList() && PageList() && Listed({}, used) && Paged([page] + pages) && Counted([page] + pages, used)
      ensures fresh(page) && page.prev == null
      ensures chunks == old(chunks) + ChunksIn(page) && forall c :: c in page.chunks ==> fresh(c)
    {
      hide FreeList, PageList;
      page := new Page();
      NobodyYet(page);
      ArrangeChunkList(page);
      Adopt(page);
    }

    /** One page more, all of it free. */
    method AllocPage()
      requires Shape()
      modifies this`head, this`free, this`listHead, this`pages, this`chunks, free`prev, pages`prev
      ensures Shape() && |pages| == |old(pages)| + 1 && pages[1..] == old(pages) && fresh(pages[0])
      ensures chunks == old(chunks) + ChunksIn(pages[0])
      ensures forall c :: c in pages[0].chunks ==> fresh(c)
    {
      hide FreeList, PageList, Listed, Whole;
      var page := NewPage();
      PushPage(page);
    }

    /** Every chunk and every page is the one of before or a new one. */
    method AllocChunk(count: nat)
      requires Shape()
      modifies this`head, this`free, this`listHead, this`pages, this`chunks, this`pageCount, chunks`prev, pages`prev
      ensures Shape() && pageCount == old(pageCount) + count
      ensures |pages| == |old(pages)| + count && pages[count..] == old(pages)
      ensures old(chunks) <= chunks && fresh(chunks - old(chunks)) && (count > 0 ==> fresh(pages[0]))
    {
      hide FreeList, PageList, Paged, Counted;
      for i := 0 to count
        invariant Shape() && |pages| == |old(pages)| + i && pages[i..] == old(pages)
        invariant old(chunks) <= chunks && fresh(chunks - old(chunks)) && (i > 0 ==> fresh(pages[0]))
        invariant fresh(pages[..i]) && pageCount == old(pageCount)
      {
        assert forall k :: 0 <= k < |free| ==> free[k] in chunks;
        assert pages == pages[..i] + pages[i..];
        ghost var before := pages;
        AllocPage();
        assert pages[i + 1..] == pages[1..][i..] && pages[..i + 1] == [pages[0]] + before[..i];
      }
      pageCount := pageCount + count;
    }

    constructor (chunkCount: nat, chunkSize: nat)
      requires chunkSize > 0
      ensures Valid() && this.chunkCount == chunkCount && this.chunkSize == chunkSize
      ensures |pages| == chunkCount && used == {} && fresh(chunks)
    {
      this.chunkCount, this.chunkSize := chunkCount, chunkSize;
      head, listHead, pageCount := null, null, 0;
      free, pages, chunks, used := [], [], {}, {};
      new;
      AllocChunk(chunkCount);
    }

    // ----- taking a chunk

    method TakeHead() returns (ret: Chunk)
      requires Shape() && free != []
      modifies this`head, this`free, this`used, chunks`prev, chunks`next, chunks`inUse, pages`count
      ensures Shape() && ret == old(free)[0] && free == old(free)[1..]
      ensures ret in chunks && ret !in old(used) && used == old(used) + {ret}
    {
      hide FreeList, PageList, Paged, Listed, Counted;
      HeadIsFree();
      ret := head;
      assert {} + {ret} == {ret} && free[..0] + free[1..] == free[1..];
      TakeOff(ret, 0, {});
      MarkUsed(ret);
    }

    lemma HeadIsFree()
      requires FreeList() && Listed({}, used) && Paged(pages) && free != []
      ensures head == free[0] && head in chunks && head.parent in pages && head !in used
    {
    }

    /** Takes a chunk off the list, or nothing off it if the chunk is loose already. */
    method TakeOff(c: Chunk, ghost i: int, ghost loose: set<Chunk>)
      requires FreeList() && Listed(loose, used) && c in chunks
      requires if i < 0 then c in loose else i < |free| && free[i] == c
      modifies this`head, this`free, chunks`prev, chunks`next
      ensures FreeList() && Listed(loose + {c}, used)
      ensures free == if i < 0 then old(free) else old(free)[..i] + old(free)[i + 1..]
    {
      FreeAreChunks(loose);
      ghost var before := free;
      hide FreeList, Listed;
      if i >= 0 { FreeApart(i); }
      Remove(c, i);
      ListedWithout(c, loose, before);
    }

    lemma FreeAreChunks(loose: set<Chunk>)
      requires Listed(loose, used)
      ensures Split(loose, free) && forall k :: 0 <= k < |free| ==> free[k] in chunks
      ensures forall c :: c in loose ==> c !in free
      ensures forall c :: c in used + loose ==> c in chunks && c !in free && c.prev == null && c.next == null
      ensures forall c :: c in chunks ==> (c.inUse <==> c in used)
    {
    }

    /** The chunks are those in use, the loose ones and those of the list. */
    ghost predicate Split(loose: set<Chunk>, list: seq<Chunk>)
      reads this`chunks, this`used
    {
      && used <= chunks && loose <= chunks && used !! loose
      && (forall c :: c in list ==> c in chunks && c !in used && c !in loose)
      && (forall c :: c in chunks && c !in used && c !in loose ==> c in list)
    }

    /** The chunk c has been taken off the list, or was on none. */
    lemma ListedWithout(c: Chunk, loose: set<Chunk>, before: seq<Chunk>)
      requires Split(loose, before) && c in chunks && c !in used && c.prev == null && c.next == null
      requires forall x :: x in used + loose ==> x.prev == null && x.next == null
      requires forall x :: x in chunks ==> (x.inUse <==> x in used)
      requires forall x :: x in free <==> x in before && x != c
      ensures Listed(loose + {c}, used)
    {
    }

    lemma FreeApart(i: nat)
      requires FreeList() && i < |free|
      ensures forall x :: x in free ==> x == free[i] || x in free[..i] + free[i + 1..]
      ensures free[i] !in free[..i] + free[i + 1..]
    {
    }

    method MarkUsed(c: Chunk)
      requires FreeList() && PageList() && Paged(pages) && Listed({c}, used) && Counted(pages, used)
      requires c in chunks && c.parent in pages && c !in used
      modifies this`used, c`inUse, c.parent`count
      ensures Shape() && used == old(used) + {c}
    {
      hide FreeList, PageList, Paged, Listed, Counted;
      CountUp(c);
      SetInUse(c);
      used := used + {c};
    }

    method CountUp(c: Chunk)
      requires Counted(pages, used) && c.parent in pages && c !in used
      modifies c.parent`count
      ensures Counted(pages, used + {c})
    {
      forall p | p in pages ensures |UsedOf(p, used + {c})| == |UsedOf(p, used)| + if p == c.parent then 1 else 0 {
        OneMore(p, used, c);
      }
      hide UsedOf;
      c.parent.count := c.parent.count + 1;
    }

    method SetInUse(c: Chunk)
      requires Listed({c}, used) && c in chunks
      modifies c`inUse
      ensures Listed({}, used + {c})
    {
      c.inUse := true;
    }

    /** The page that is allocated when no chunk is free. */
    method Refill()
      requires Valid() && free == []
      modifies this`head, this`free, this`listHead, this`pages, this`chunks, this`pageCount, chunks`prev, pages`prev
      ensures Valid() && free != [] && fresh(free[0])
      ensures |pages| == |old(pages)| + 1 && pages[1..] == old(pages) && fresh(pages[0])
      ensures fresh(chunks - old(chunks))
    {
      hide FreeList, PageList, Counted;
      AllUsed();
      AllocChunk(1);
      SomeFree(old(pages), old(chunks));
    }

    lemma AllUsed()
      requires Paged(pages) && Listed({}, used) && free == []
      ensures chunks == used && forall c :: c in chunks ==> c.parent in pages
    {
    }

    lemma SomeFree(before: seq<Page>, all: set<Chunk>)
      requires Paged(pages) && Listed({}, used) && chunkSize > 0 && used == all
        && (forall c :: c in all ==> c.parent in before)
      requires |pages| == |before| + 1 && pages[0] !in before
      ensures free != [] && free[0] in chunks - all
    {
      assert pages[0] in pages;
      var c := pages[0].chunks[0];
      assert c in chunks && c.parent == pages[0];
    }

    /** create */
    method Create() returns (ret: Chunk)
      requires Valid()
      modifies this, chunks`prev, chunks`next, chunks`inUse, pages`count, pages`prev
      ensures Valid() && ret in chunks && ret !in old(used) && used == old(used) + {ret}
      ensures if old(free) != [] then ret == old(free)[0] && free == old(free)[1..]
        && pages == old(pages) && chunks == old(chunks)
              else fresh(ret) && |pages| == |old(pages)| + 1 && pages[1..] == old(pages)
    {
      hide PageList, Paged, Listed, Counted;
      if head == null { Refill(); }
      assert forall k :: 0 < k < |pages| && pages != old(pages) ==> pages[k] == pages[1..][k - 1];
      ret := TakeHead();
    }

    // ----- giving a chunk back

    method MarkFree(c: Chunk)
      requires Listed({}, used) && Counted(pages, used) && c in used && c.parent in pages
      modifies this`used, c`inUse, c.parent`count
      ensures Listed({c}, used) && Counted(pages, used) && used == old(used) - {c}
      ensures old(c.parent.count) > 0 && c.parent.count == old(c.parent.count) - 1
    {
      hide Listed, Counted;
      CountDown(c);
      ClearInUse(c);
      used := used - {c};
    }

    method CountDown(c: Chunk)
      requires Counted(pages, used) && c.parent in pages && c in used
      modifies c.parent`count
      ensures Counted(pages, used - {c})
      ensures old(c.parent.count) > 0 && c.parent.count == old(c.parent.count) - 1
    {
      assert used == used - {c} + {c};
      forall p | p in pages ensures |UsedOf(p, used)| == |UsedOf(p, used - {c})| + if p == c.parent then 1 else 0 {
        OneMore(p, used - {c}, c);
      }
      hide UsedOf;
      c.parent.count := c.parent.count - 1;
    }

    method ClearInUse(c: Chunk)
      requires Listed({}, used) && c in used
      modifies c`inUse
      ensures Listed({c}, used - {c})
    {
      c.inUse := false;
    }

    method AddLoose(c: Chunk)
      requires FreeList() && Listed({c}, used)
      modifies this`head, this`free, chunks`next, chunks`prev
      ensures FreeList() && Listed({}, used) && free == [c] + old(free)
    {
      assert forall k :: 0 <= k < |free| ==> free[k] in chunks;
      hide FreeList;
      Add(c);
    }

    lemma ChunksAreHere(page: Page)
      requires Whole(page)
      ensures |page.chunks| == chunkSize && forall x :: x in page.chunks ==> x in chunks
    {
    }

    lemma StillFree(x: Chunk, loose: set<Chunk>) returns (k: int)
      requires Listed(loose, used) && x in chunks && x !in used
      ensures !x.inUse && if k < 0 then x in loose else k < |free| && free[k] == x
    {
      if x in loose { k := -1; } else { k :| 0 <= k < |free| && free[k] == x; }
    }

    method TakeFree(x: Chunk, ghost loose: set<Chunk>)
      requires FreeList() && Listed(loose, used) && x in chunks && x !in used
      modifies this`head, this`free, chunks`prev, chunks`next
      ensures FreeList() && Listed(loose + {x}, used)
    {
      hide FreeList, Listed;
      ghost var k := StillFree(x, loose);
      TakeOff(x, k, loose);
    }

    /** Takes all chunks of the page off the list, but for the one that is not on it. */
    method TakeAllOff(page: Page, ghost c: Chunk)
      requires FreeList() && Listed({c}, used) && Whole(page) && c in page.chunks
        && forall x :: x in page.chunks ==> x !in used
      modifies this`head, this`free, chunks`prev, chunks`next
      ensures FreeList() && Listed(ChunksIn(page), used)
    {
      ChunksAreHere(page);
      MembersStep(page.chunks, c);
      hide FreeList, Listed, Whole, Members;
      ghost var loose := {c};
      for i := 0 to chunkSize
        invariant FreeList() && Listed(loose, used) && loose == {c} + Members(page.chunks[..i])
      {
        TakeFree(page.chunks[i], loose);
        loose := loose + {page.chunks[i]};
      }
    }

    static ghost function Members(q: seq<Chunk>): set<Chunk> {
      set x | x in q
    }

    static lemma MembersStep(q: seq<Chunk>, c: Chunk)
      requires c in q
      ensures Members(q[..0]) == {} && {c} + Members(q[..|q|]) == Members(q)
      ensures forall i :: 0 <= i < |q| ==> Members(q[..i + 1]) == Members(q[..i]) + {q[i]}
    {
      assert q[..|q|] == q;
      forall i | 0 <= i < |q| ensures q[..i + 1] == q[..i] + [q[i]] { }
    }

    /** Releases a page that is free as a whole. */
    method FreeChunkList(page: Page, ghost c: Chunk, ghost i: nat)
      requires FreeList() && PageList() && Paged(pages) && Listed({c}, used) && Counted(pages, used)
      requires i < |pages| && pages[i] == page && c in page.chunks && UsedOf(page, used) == {}
      modifies this`head, this`free, this`listHead, this`pages, this`chunks, this`pageCount, chunks`prev, chunks`next
      modifies pages`prev, pages`next
      ensures Shape() && pages == old(pages)[..i] + old(pages)[i + 1..] && page !in pages
      ensures chunks == old(chunks) - ChunksIn(page) && pageCount == old(pageCount) - 1 && ChunksIn(page) !! used
    {
      hide FreeList, PageList, Paged, Listed, Counted, Whole;
      UsedTells(page);
      PagesApart(i);
      TakeAllOff(page, c);
      ReleasePage(page, i);
    }

    method ReleasePage(page: Page, ghost i: nat)
      requires FreeList() && PageList() && Paged(pages) && Listed(ChunksIn(page), used) && Counted(pages, used)
      requires i < |pages| && pages[i] == page
      modifies this`listHead, this`pages, this`chunks, this`pageCount, pages`prev, pages`next
      ensures Shape() && pages == old(pages)[..i] + old(pages)[i + 1..]
      ensures chunks == old(chunks) - ChunksIn(page) && pageCount == old(pageCount) - 1
    {
      hide FreeList, PageList, Paged, Listed, Counted, Whole;
      PagesApart(i);
      UnlinkPage(page, i);
      assert FreeList() && PageList();
      Dismiss(page, old(pages), i);
      assert FreeList() && PageList() && Paged(pages) && Listed({}, used) && Counted(pages, used);
      pageCount := pageCount - 1;
    }

    lemma PagesApart(i: nat)
      requires PageList() && i < |pages|
      ensures pages[i] !in pages[..i] + pages[i + 1..]
    {
    }

    lemma UsedTells(page: Page)
      requires Paged(pages) && page in pages
      ensures Whole(page) && forall x :: x in page.chunks ==> (x in used <==> x in UsedOf(page, used))
    {
    }

    /** The chunks of a released page are no longer chunks of the pool. */
    ghost method Dismiss(page: Page, before: seq<Page>, i: nat)
      requires i < |before| && before[i] == page && pages == before[..i] + before[i + 1..] && page !in pages
      requires Paged(before) && Listed(ChunksIn(page), used) && Counted(before, used)
      modifies this`chunks
      ensures chunks == old(chunks) - ChunksIn(page)
      ensures Paged(pages) && Listed({}, used) && Counted(pages, used)
    {
      assert before == before[..i] + [page] + before[i + 1..];
      assert forall p :: p in before <==> p == page || p in pages;
      chunks := chunks - ChunksIn(page);
    }

    lemma WhereItIs(c: Chunk)
      requires Paged(pages) && Listed({}, used) && c in chunks && c.inUse
      ensures c in used && c.parent in pages && c in c.parent.chunks
    {
    }

    lemma NoneUsed(page: Page)
      requires Counted(pages, used) && page in pages && page.count == 0
      ensures UsedOf(page, used) == {}
    {
    }

    /** recover */
    method Recover(c: Chunk)
      requires Valid() && c in chunks && c.inUse
      modifies this, chunks`prev, chunks`next, chunks`inUse, pages`count, pages`prev, pages`next
      ensures Valid() && used == old(used) - {c}
      ensures if old(c.parent.count) == 1 && old(|pages|) > chunkCount
              then c.parent in old(pages) && c.parent !in pages
                && (forall p :: p in old(pages) && p != c.parent ==> p in pages)
                && |pages| == |old(pages)| - 1 && chunks == old(chunks) - ChunksIn(c.parent)
                && ChunksIn(c.parent) !! used
              else free == [c] + old(free) && pages == old(pages) && chunks == old(chunks)
    {
      hide FreeList, PageList, Paged, Listed, Counted, UsedOf, ChunksIn, Whole;
      WhereItIs(c);
      MarkFree(c);
      if c.parent.count == 0 && pageCount > chunkCount {
        ghost var i :| 0 <= i < |pages| && pages[i] == c.parent;
        NoneUsed(c.parent);
        FreeChunkList(c.parent, c, i);
      } else {
        AddLoose(c);
      }
    }

    /** Between any two operations: the free list is exactly the chunks of the pages that are not in use, linked
        both ways; a chunk belongs to one page, and a page counts its own chunks in use. */
    lemma Integrity()
      requires Valid()
      ensures forall c :: c in free <==> c in chunks && !c.inUse
      ensures forall i :: 0 <= i < |free| ==>
        free[i].next == NthChunk(free, i + 1) && free[i].prev == NthChunk(free, i - 1)
      ensures forall c :: c in chunks <==> exists p :: p in pages && c in p.chunks
      ensures forall p, q, c :: p in pages && q in pages && c in p.chunks && c in q.chunks ==> p == q
      ensures forall p :: p in pages ==> p.count == |set c | c in p.chunks && c.inUse|
    {
      forall p | p in pages ensures p.count == |set c | c in p.chunks && c.inUse| {
        UsedTells(p);
        assert UsedOf(p, used) == set c | c in p.chunks && c.inUse;
      }
      forall p, c | p in pages && c in p.chunks ensures c in chunks && c.parent == p {
        assert Whole(p);
      }
    }

    ghost function ChunksOf(ps: seq<Page>): set<Chunk>
      reads this`chunks
    {
      set c | c in chunks && c.parent in ps
    }

    lemma PageOfChunks(p: Page)
      requires Paged(pages) && p in pages
      ensures |ChunksIn(p)| == chunkSize && ChunksIn(p) <= chunks
      ensures forall c :: c in chunks ==> (c.parent == p <==> c in ChunksIn(p))
    {
      assert Whole(p);
      SizeOfDistinct(p.chunks);
    }

    lemma PageAndRest(p: Page, rest: seq<Page>)
      requires ChunksIn(p) <= chunks && p !in rest
      requires forall c :: c in chunks ==> (c.parent == p <==> c in ChunksIn(p))
      ensures |ChunksOf([p] + rest)| == |ChunksIn(p)| + |ChunksOf(rest)|
    {
      hide ChunksIn;
      assert ChunksOf([p] + rest) == ChunksIn(p) + ChunksOf(rest);
    }

    lemma {:induction false} ChunksOfPages(ps: seq<Page>)
      requires Paged(pages) && Distinct(ps) && forall p :: p in ps ==> p in pages
      ensures |ChunksOf(ps)| == |ps| * chunkSize
    {
      hide Paged, ChunksIn;
      if ps == [] {
        assert ChunksOf(ps) == {};
      } else {
        PageOfChunks(ps[0]);
        ChunksOfPages(ps[1..]);
        PageAndRest(ps[0], ps[1..]);
        assert [ps[0]] + ps[1..] == ps;
        Times(|ps|, chunkSize);
      }
    }

    lemma Times(n: nat, k: nat)
      requires n > 0
      ensures n * k == k + (n - 1) * k
    {
    }

    /** Nothing is lost: every chunk of every page is free or in use. */
    lemma Conservation()
      requires Valid()
      ensures |free| + |used| == pageCount * chunkSize
    {
      ChunksOfPages(pages);
      SizeOfDistinct(free);
      assert ChunksOf(pages) == chunks;
      assert chunks == (set c | c in free) + used;
    }
  }

  lemma {:induction false} SizeOfDistinct<T>(s: seq<T>)
    requires Distinct(s)
    ensures |set x | x in s| == |s|
  {
    if s != [] {
      SizeOfDistinct(s[1..]);
      assert (set x | x in s) == (set x | x in s[1..]) + {s[0]};
    }
  }

  lemma OneMore(p: Page, used: set<Chunk>, c: Chunk)
    requires c !in used
    ensures |UsedOf(p, used + {c})| == |UsedOf(p, used)| + if p == c.parent then 1 else 0
  {
    if p == c.parent {
      assert UsedOf(p, used + {c}) == UsedOf(p, used) + {c};
    } else {
      assert UsedOf(p, used + {c}) == UsedOf(p, used);
    }
  }
}

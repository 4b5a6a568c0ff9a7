/** The growing ring queue, each of its operations taken as one atomic step. */
module RingQueue {
  import opened Wrappers

  datatype Space<+T> = Space(sign: bool, content: Option<T>)

  const QUEUE_BLOCK_SIZE := 1024
  const U32 := 0x1_0000_0000

  function Wrap(n: int): (r: int)
    ensures 0 <= r < U32
  {
    n % U32
  }

  /** The k-th space of a ring from space r on. */
  function Place(r: int, size: int, k: int): int {
    if r + k < size then r + k else r + k - size
  }

  /** How far space j is from space r on. */
  function Distance(r: int, size: int, j: int): int {
    if j >= r then j - r else j - r + size
  }

  lemma PlacesDiffer(r: int, size: int, j: int, k: int)
    requires 0 <= r < size && 0 <= j < size && 0 <= k < size && j != k
    ensures Place(r, size, j) != Place(r, size, k)
  {
  }

  lemma FirstPlace(r: int, size: int)
    requires 0 <= r < size
    ensures Place(r, size, 0) == r
  {
  }

  lemma NextPlace(r: int, size: int, k: int)
    requires 0 <= r < size && 0 <= k < size
    ensures Place(r, size, k + 1) == (if Place(r, size, k) + 1 >= size then 0 else Place(r, size, k) + 1)
    ensures 0 <= Place(r, size, k) < size && forall j :: 0 <= j < size ==> 0 <= Place(r, size, j) < size
  {
  }

  lemma CountUp(w: int, r: int, n: nat)
    requires 0 <= w < 0x1_0000_0000 && 0 <= r < 0x1_0000_0000 && Wrap(w - r) == n && n + 1 < 0x1_0000_0000
    ensures Wrap(Wrap(w + 1) - r) == n + 1
  {
  }

  lemma CountDown(w: int, r: int, n: nat)
    requires 0 <= w < U32 && 0 <= r < U32 && Wrap(w - r) == n && n > 0
    ensures Wrap(w - Wrap(r + 1)) == n - 1
  {
  }

  ghost function Repeat<T>(x: T, n: nat): (r: seq<T>)
    ensures |r| == n && forall i :: 0 <= i < n ==> r[i] == x
  {
    seq(n, _ => x)
  }

  class TQueue<T> {
    var size: int
    var queue: array<Space<T>>
    var rindex: int
    var windex: int
    var rcount: int
    var wcount: int
    ghost var contents: seq<T>
    ghost var pushed: seq<T>
    ghost var pulled: seq<T>

    ghost predicate Counted()
      reads this`contents, this`rcount, this`wcount
    {
      0 <= rcount < U32 && 0 <= wcount < U32 && |contents| < U32 && Wrap(wcount - rcount) == |contents|
    }

    /** The occupied spaces are a window of the ring. */
    ghost predicate Ring()
      reads this`size, this`queue, this`rindex, this`windex, this`contents, queue
    {
      && 0 < size < U32 && queue.Length == size && 0 <= rindex < size && |contents| <= size
      && windex == Place(rindex, size, |contents|)
      && (forall k :: 0 <= k < |contents| ==> queue[Place(rindex, size, k)] == Space(true, Some(contents[k])))
      && (forall k :: |contents| <= k < size ==> !queue[Place(rindex, size, k)].sign)
    }

    /** The counters tell how long the window is, even when they wrap. */
    ghost predicate Shape()
      reads this, queue
    {
      Ring() && Counted()
    }

    /** What was pulled is what was pushed, in that order, up to what is still in the queue. */
    ghost predicate Valid()
      reads this, queue
    {
      Shape() && pushed == pulled + contents
    }

    constructor ()
      ensures Valid() && fresh(queue) && contents == [] && size == QUEUE_BLOCK_SIZE
    {
      size := QUEUE_BLOCK_SIZE;
      rindex, windex, rcount, wcount := 0, 0, 0, 0;
      queue := new Space<T>[QUEUE_BLOCK_SIZE](_ => Space(false, None));
      contents, pushed, pulled := [], [], [];
    }

    /** Between any two operations: the spaces taken are exactly the circular window from the reading end on, as
        long as the wrapped counters say, and holding what was pushed and not pulled yet. */
    lemma TakenIsWindow(j: int)
      requires Valid() && 0 <= j < size
      ensures 0 < size == queue.Length && 0 <= rindex < size
      ensures queue[j].sign <==> Distance(rindex, size, j) < Wrap(wcount - rcount)
      ensures queue[j].sign ==>
        var k := |pulled| + Distance(rindex, size, j); k < |pushed| && queue[j].content == Some(pushed[k])
    {
      var k := Distance(rindex, size, j);
      assert Place(rindex, size, k) == j;
      assert k < |contents| ==> pushed[|pulled| + k] == contents[k];
    }

    /** The space at the writing end is taken exactly when all are; then both ends meet. */
    lemma FullMeans()
      requires Ring()
      ensures queue[windex].sign <==> |contents| == size
      ensures |contents| == size ==> windex == rindex
      ensures windex == rindex <==> |contents| == size || contents == []
    {
      if |contents| < size {
        assert !queue[Place(rindex, size, |contents|)].sign;
      } else {
        assert queue[Place(rindex, size, 0)].sign;
      }
    }

    method Push(src: T)
      requires Valid() && size + QUEUE_BLOCK_SIZE < U32
      modifies this, queue
      ensures Valid() && contents == old(contents) + [src] && pushed == old(pushed) + [src] && pulled == old(pulled)
      ensures size == if |old(contents)| == old(size) then old(size) + QUEUE_BLOCK_SIZE else old(size)
      ensures queue == old(queue) || fresh(queue)
    {
      FullMeans();
      while queue[windex].sign
        invariant Valid() && (queue == old(queue) || fresh(queue))
        invariant contents == old(contents) && pushed == old(pushed) && pulled == old(pulled)
        invariant queue[windex].sign <==> |contents| == size
        invariant size == old(size) || (|contents| == old(size) && size == old(size) + QUEUE_BLOCK_SIZE)
        invariant |contents| == size ==> windex == rindex && size == old(size)
        decreases |contents| == size
      {
        DoubleQueueSize();
        FullMeans();
      }
      PutAtEnd(src);
      pushed := pushed + [src];
    }

    method PutAtEnd(src: T)
      requires Shape() && |contents| < size
      modifies this`windex, this`wcount, this`contents, queue
      ensures Shape() && contents == old(contents) + [src]
    {
      hide Wrap, Place;
      CountUp(wcount, rcount, |contents|);
      NextPlace(rindex, size, |contents|);
      forall k | 0 <= k < size && k != |contents| ensures Place(rindex, size, k) != windex {
        PlacesDiffer(rindex, size, k, |contents|);
      }
      queue[windex] := Space(true, Some(src));
      windex := windex + 1;
      wcount := Wrap(wcount + 1);
      contents := contents + [src];
      if windex >= size { windex := 0; }
    }

    method TryPull() returns (value: Option<T>)
      requires Valid()
      modifies this, queue
      ensures Valid() && queue == old(queue) && size == old(size) && pushed == old(pushed)
      ensures if old(contents) == [] then value == None && contents == [] && pulled == old(pulled)
              else
                value == Some(old(contents)[0]) && contents == old(contents)[1..]
                && pulled == old(pulled) + [old(contents)[0]]
    {
      assert contents == [] ==> !queue[Place(rindex, size, 0)].sign;
      assert contents != [] ==> queue[Place(rindex, size, 0)].sign;
      if !queue[rindex].sign {
        return None;
      }
      pulled := pulled + [contents[0]];
      value := TakeFirst();
    }

    method TakeFirst() returns (value: Option<T>)
      requires Shape() && contents != []
      modifies this`rindex, this`rcount, this`contents, queue
      ensures Shape() && value == Some(old(contents)[0]) && contents == old(contents)[1..]
    {
      hide Wrap, Place;
      CountDown(wcount, rcount, |contents|);
      ghost var r, before := rindex, contents;
      NextPlace(r, size, 0);
      FirstPlace(r, size);
      forall k | 0 < k < size ensures Place(r, size, k) != r { PlacesDiffer(r, size, k, 0); }
      value := queue[rindex].content;
      queue[rindex] := Space(false, value);
      rindex := rindex + 1;
      rcount := Wrap(rcount + 1);
      contents := contents[1..];
      if rindex >= size { rindex := 0; }
      RingFrom(r, before);
    }

    /** The ring as it is seen from the space after r, where the first element stood. */
    lemma RingFrom(r: int, before: seq<T>)
      requires 0 < size < U32 && queue.Length == size && 0 <= r < size && 0 < |before| <= size
      requires contents == before[1..] && rindex == (if r + 1 >= size then 0 else r + 1)
        && windex == Place(r, size, |before|)
      requires forall k :: 0 < k < |before| ==>
        0 <= Place(r, size, k) < size && queue[Place(r, size, k)] == Space(true, Some(before[k]))
      requires forall k :: |before| <= k < size ==> 0 <= Place(r, size, k) < size && !queue[Place(r, size, k)].sign
      requires !queue[r].sign
      ensures Ring()
    {
      forall k | 0 <= k < |contents| ensures queue[Place(rindex, size, k)] == Space(true, Some(contents[k])) {
        assert Place(rindex, size, k) == Place(r, size, k + 1);
      }
      forall k | |contents| <= k < size ensures !queue[Place(rindex, size, k)].sign {
        assert k < size - 1 ==> Place(rindex, size, k) == Place(r, size, k + 1);
      }
    }

    method IsEmpty() returns (r: bool)
      requires Valid()
      ensures r <==> contents == []
    {
      r := rcount == wcount;
    }

    method Count() returns (n: int)
      requires Valid()
      ensures n == |contents|
    {
      n := Wrap(wcount - rcount);
    }

    /** The loop for a window in one piece. It never moves on in the old ring. */
    static method CopyPiece(from: array<Space<T>>, to: array<Space<T>>, rindex: int, n: int)
      requires from != to && 0 <= rindex < from.Length && 0 <= n <= to.Length
      requires forall j :: 0 <= j < to.Length ==> !to[j].sign
      modifies to
      ensures forall j :: 0 <= j < n ==> to[j] == from[rindex]
      ensures forall j :: n <= j < to.Length ==> !to[j].sign
    {
      for i := 0 to n
        invariant forall j :: 0 <= j < i ==> to[j] == from[rindex]
        invariant forall j :: i <= j < to.Length ==> !to[j].sign
      {
        to[i] := from[rindex];
      }
    }

    /** The two loops for a window that goes round the end. */
    static method CopyPieces(from: array<Space<T>>, to: array<Space<T>>, rindex: int, windex: int)
      requires from != to && 0 <= windex <= rindex < from.Length <= to.Length
      requires forall j :: 0 <= j < to.Length ==> !to[j].sign
      modifies to
      ensures forall j :: 0 <= j < from.Length - rindex + windex ==> to[j] == from[Place(rindex, from.Length, j)]
      ensures forall j :: from.Length - rindex + windex <= j < to.Length ==> !to[j].sign
    {
      for i := 0 to from.Length - rindex
        invariant forall j :: 0 <= j < i ==> to[j] == from[rindex + j]
        invariant forall j :: i <= j < to.Length ==> !to[j].sign
      {
        to[i] := from[rindex + i];
      }
      for i := 0 to windex
        invariant forall j :: 0 <= j < from.Length - rindex + i ==> to[j] == from[Place(rindex, from.Length, j)]
        invariant forall j :: from.Length - rindex + i <= j < to.Length ==> !to[j].sign
      {
        to[from.Length - rindex + i] := from[i];
      }
    }

    /** Growth keeps the contents where the window goes round the end of the ring. Where it does not, the
        queue is left with copies of its first element. */
    method DoubleQueueSize()
      requires Valid() && size + QUEUE_BLOCK_SIZE < U32
      modifies this`size, this`queue, this`windex, this`rindex, this`contents
      ensures Shape() && fresh(queue) && size == old(size) + QUEUE_BLOCK_SIZE
      ensures contents ==
        if old(contents) != [] && old(windex) > old(rindex) then Repeat(old(contents)[0], |old(contents)|)
        else old(contents)
    {
      EmptyMeans();
      RingTells();
      hide Wrap, Ring, Place, Filled, Window;
      var oldQueue := queue;
      size := size + QUEUE_BLOCK_SIZE;
      queue := NewQueue(size);
      if rcount != wcount {
        CopyAcross(oldQueue);
      } else {
        EmptyRing();
      }
    }

    static method NewQueue(n: int) returns (q: array<Space<T>>)
      requires n > 0
      ensures fresh(q) && q.Length == n && forall j :: 0 <= j < n ==> !q[j].sign
    {
      q := new Space<T>[n](_ => Space(false, None));
    }

    /** Fills the new ring from the old one. */
    method CopyAcross(oldQueue: array<Space<T>>)
      requires contents != [] && Window(oldQueue)
      requires oldQueue != queue && U32 > size == queue.Length > oldQueue.Length && Counted()
      requires forall j :: 0 <= j < size ==> !queue[j].sign
      modifies this`contents, this`windex, this`rindex, queue
      ensures Ring() && |contents| == |old(contents)|
      ensures contents ==
        if old(windex) > old(rindex) then Repeat(old(contents)[0], |old(contents)|) else old(contents)
    {
      hide Place, Wrap;
      if windex > rindex {
        CopyPiece(oldQueue, queue, rindex, windex - rindex);
        contents := Repeat(contents[0], |contents|);
      } else {
        CopyPieces(oldQueue, queue, rindex, windex);
      }
      assert Filled();
      windex := Wrap(wcount - rcount);
      rindex := 0;
      NewRing();
    }

    /** What stands where, by the two ends of the window. */
    ghost predicate Window(q: array<Space<T>>)
      reads this`rindex, this`windex, this`contents, q
    {
      && 0 <= rindex < q.Length && 0 <= windex < q.Length && |contents| <= q.Length
      && (contents == [] ==> windex == rindex)
      && (contents != [] ==>
           && q[rindex] == Space(true, Some(contents[0]))
           && |contents| == if windex > rindex then windex - rindex else q.Length - rindex + windex)
      && forall k :: 0 <= k < |contents| ==>
           0 <= Place(rindex, q.Length, k) < q.Length && q[Place(rindex, q.Length, k)] == Space(true, Some(contents[k]))
    }

    lemma RingTells()
      requires Ring()
      ensures Window(queue) && queue.Length == size && 0 <= windex < size
      ensures contents == [] ==> windex == rindex
    {
      FirstPlace(rindex, size);
      if contents != [] { assert queue[Place(rindex, size, 0)] == Space(true, Some(contents[0])); }
    }

    /** The window begins with the first space. */
    ghost predicate Filled()
      reads this`size, this`queue, this`contents, queue
    {
      && queue.Length == size && |contents| < size
      && (forall k :: 0 <= k < |contents| ==> queue[k] == Space(true, Some(contents[k])))
      && (forall k :: |contents| <= k < size ==> !queue[k].sign)
    }

    lemma NewRing()
      requires 0 < size < U32 && rindex == 0 && windex == |contents| && Filled()
      ensures Ring()
    {
    }

    lemma EmptyRing()
      requires 0 < size < U32 && queue.Length == size && 0 <= rindex == windex < size && contents == []
      requires forall k :: 0 <= k < size ==> !queue[k].sign
      ensures Ring()
    {
    }

    lemma EmptyMeans()
      requires Counted()
      ensures rcount == wcount <==> contents == []
    {
    }
  }
}

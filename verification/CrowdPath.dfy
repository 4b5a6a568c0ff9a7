/** The crowd puts a new path behind the rest of an old one and removes trackbacks, in place in one array. */
module CrowdPath {
  type Ref = nat

  // ----- trackbacks

  /** Going from a polygon to a neighbour and straight back. */
  predicate TrackbackAt(s: seq<Ref>, i: int) {
    1 <= i && i + 1 < |s| && s[i - 1] == s[i + 1]
  }

  ghost predicate NoTrackback(s: seq<Ref>) {
    forall i :: 1 <= i < |s| ==> !TrackbackAt(s, i)
  }

  /** One polygon after a path without trackbacks. */
  function Push(s: seq<Ref>, x: Ref): seq<Ref> {
    if |s| >= 2 && s[|s| - 2] == x then s[..|s| - 1] else s + [x]
  }

  function PushAll(s: seq<Ref>, t: seq<Ref>): seq<Ref>
    decreases |t|
  {
    if t == [] then s else PushAll(Push(s, t[0]), t[1..])
  }

  /** The path without its trackbacks, as a stack would compute it. */
  function Reduced(s: seq<Ref>): seq<Ref> {
    PushAll([], s)
  }

  lemma PushKeeps(s: seq<Ref>, x: Ref)
    requires NoTrackback(s)
    ensures NoTrackback(Push(s, x))
    ensures Push(s, x) != [] && Push(s, x)[|Push(s, x)| - 1] == x
    ensures s != [] ==> Push(s, x)[0] == s[0]
  {
    var t := Push(s, x);
    forall i | 1 <= i < |t| ensures !TrackbackAt(t, i) {
      if i + 1 < |s| { assert !TrackbackAt(s, i); }
    }
  }

  ghost predicate Follows(s: seq<Ref>, x: Ref, y: Ref) {
    exists i :: 0 <= i < |s| - 1 && s[i] == x && s[i + 1] == y
  }

  /** Every step of t is a step of s. */
  ghost predicate StepsOf(t: seq<Ref>, s: seq<Ref>) {
    forall i :: 0 <= i < |t| - 1 ==> Follows(s, t[i], t[i + 1])
  }

  /** One more step of the walk `all`, whose part before position n ends where s ends. */
  lemma PushSteps(s: seq<Ref>, all: seq<Ref>, n: nat)
    requires n < |all| && StepsOf(s, all) && (s != [] ==> n > 0 && all[n - 1] == s[|s| - 1])
    ensures StepsOf(Push(s, all[n]), all)
  {
    var s' := Push(s, all[n]);
    forall i | 0 <= i < |s'| - 1 ensures Follows(all, s'[i], s'[i + 1]) {
      if i + 1 < |s| {
        assert Follows(all, s[i], s[i + 1]);
      } else {
        assert all[n - 1] == s'[i] && all[n - 1 + 1] == s'[i + 1];
      }
    }
  }

  /** What the stack s is after the first n polygons of a path. */
  ghost predicate StackOf(s: seq<Ref>, all: seq<Ref>, n: nat) {
    && n <= |all| && NoTrackback(s) && StepsOf(s, all) && (s == [] <==> n == 0)
    && (n > 0 ==> s != [] && s[0] == all[0] && s[|s| - 1] == all[n - 1])
  }

  lemma {:induction false} PushAllKeeps(s: seq<Ref>, all: seq<Ref>, n: nat)
    requires StackOf(s, all, n)
    ensures StackOf(PushAll(s, all[n..]), all, |all|)
    decreases |all| - n
  {
    hide NoTrackback, StepsOf;
    if n < |all| {
      PushKeeps(s, all[n]);
      PushSteps(s, all, n);
      assert all[n..][1..] == all[n + 1..];
      PushAllKeeps(Push(s, all[n]), all, n + 1);
    }
  }

  /** Nothing is left to go back on, the ends stay, and a walk stays a walk. */
  lemma ReducedPath(s: seq<Ref>)
    ensures var r := Reduced(s);
      && NoTrackback(r) && StepsOf(r, s) && |r| <= |s| && (r == [] <==> s == [])
      && (s != [] ==> r[0] == s[0] && r[|r| - 1] == s[|s| - 1])
  {
    assert s[0..] == s;
    PushAllKeeps([], s, 0);
    PushAllLength([], s);
  }

  lemma {:induction false} PushAllLength(s: seq<Ref>, t: seq<Ref>)
    ensures |PushAll(s, t)| <= |s| + |t|
    decreases |t|
  {
    if t != [] { PushAllLength(Push(s, t[0]), t[1..]); }
  }

  lemma {:induction false} PushAllAppend(s: seq<Ref>, t: seq<Ref>, u: seq<Ref>)
    ensures PushAll(s, t + u) == PushAll(PushAll(s, t), u)
    decreases |t|
  {
    if t == [] {
      assert t + u == u;
    } else {
      assert (t + u)[1..] == t[1..] + u;
      PushAllAppend(Push(s, t[0]), t[1..], u);
    }
  }

  lemma {:induction false} PushAllOfReduced(s: seq<Ref>, t: seq<Ref>)
    requires NoTrackback(s + t)
    ensures PushAll(s, t) == s + t
    decreases |t|
  {
    if t == [] {
      assert s + t == s;
    } else {
      assert s + t == s + [t[0]] + t[1..];
      if |s| >= 2 { assert !TrackbackAt(s + t, |s| - 1); }
      PushAllOfReduced(s + [t[0]], t[1..]);
    }
  }

  /** The removal of the trackback at i. */
  function Collapse(s: seq<Ref>, i: int): seq<Ref>
    requires TrackbackAt(s, i)
  {
    s[..i] + s[i + 2..]
  }

  lemma ThereAndBack(s: seq<Ref>, b: Ref)
    requires NoTrackback(s) && s != []
    ensures Push(Push(s, b), s[|s| - 1]) == s
  {
    if |s| >= 3 { assert !TrackbackAt(s, |s| - 2); }
    var s' := Push(s, b);
    if |s| >= 2 && s[|s| - 2] == b {
      assert s == s' + [s[|s| - 1]];
    } else {
      assert s'[..|s|] == s;
    }
  }

  /** No removal changes what remains when none is left to remove. */
  lemma CollapseKeepsReduced(s: seq<Ref>, i: int)
    requires TrackbackAt(s, i)
    ensures Reduced(Collapse(s, i)) == Reduced(s)
  {
    var front, back := s[..i], s[i + 2..];
    var stack := PushAll([], front);
    assert s == front + ([s[i], s[i + 1]] + back);
    PushAllAppend([], front, [s[i], s[i + 1]] + back);
    PushAllAppend([], front, back);
    assert front[0..] == front;
    PushAllKeeps([], front, 0);
    assert front[|front| - 1] == s[i - 1] == s[i + 1];
    ThereAndBack(stack, s[i]);
    var rest := [s[i], s[i + 1]] + back;
    assert rest[1..] == [s[i + 1]] + back && rest[1..][1..] == back;
    assert PushAll(stack, rest) == PushAll(Push(Push(stack, s[i]), s[i + 1]), back);
  }

  /** Trackbacks removed one at a time, in any order. */
  ghost predicate Collapses(steps: seq<int>, s: seq<Ref>, t: seq<Ref>)
    decreases |steps|
  {
    if steps == [] then s == t else TrackbackAt(s, steps[0]) && Collapses(steps[1..], Collapse(s, steps[0]), t)
  }

  /** In whichever order trackbacks are removed, what remains in the end is the same. */
  lemma {:induction false} OrderOfRemovals(steps: seq<int>, s: seq<Ref>, t: seq<Ref>)
    requires Collapses(steps, s, t) && NoTrackback(t)
    ensures t == Reduced(s)
    decreases |steps|
  {
    if steps == [] {
      assert [] + s == s;
      PushAllOfReduced([], s);
    } else {
      CollapseKeepsReduced(s, steps[0]);
      OrderOfRemovals(steps[1..], Collapse(s, steps[0]), t);
    }
  }

  // ----- the code

  /** memmove within one array */
  method MemMove(a: array<Ref>, dst: int, src: int, n: int)
    requires 0 <= n && 0 <= dst <= a.Length - n && 0 <= src <= a.Length - n
    modifies a
    ensures a[dst..dst + n] == old(a[src..src + n])
    ensures forall k :: 0 <= k < a.Length && !(dst <= k < dst + n) ==> a[k] == old(a[k])
  {
    forall k | 0 <= k < n { a[dst + k] := a[src + k]; }
  }

  /** The loop that removes trackbacks. It ends: nres shrinks by two wherever j goes back by one. */
  method RemoveTrackbacks(res: array<Ref>, count: nat) returns (nres: nat)
    requires count <= res.Length
    modifies res
    ensures nres <= count && res[..nres] == Reduced(old(res[..count]))
  {
    nres := count;
    ghost var s := res[..count];
    var j := 0;
    Started(s);
    while j < nres
      invariant 0 <= j <= nres <= count && s == res[..nres]
      invariant if j < nres then PushAll(s[..j + 1], s[j + 1..]) == Reduced(old(res[..count]))
                else s == Reduced(old(res[..count]))
      decreases 2 * nres - j
    {
      Advance(s, j);
      if j - 1 >= 0 && j + 1 < nres && res[j - 1] == res[j + 1] {
        s := Collapse(s, j);
        CloseGap(res, j, nres);
        nres := nres - 2;
        j := j - 2;
      }
      j := j + 1;
    }
  }

  method CloseGap(res: array<Ref>, j: int, nres: nat)
    requires nres <= res.Length && TrackbackAt(res[..nres], j)
    modifies res
    ensures res[..nres - 2] == Collapse(old(res[..nres]), j)
  {
    MemMove(res, j - 1, j + 1, nres - (j + 1));
    assert res[j - 1..nres - 2] == old(res[j + 1..nres]);
    assert forall k :: j - 1 <= k < nres - 2 ==>
      res[k] == res[j - 1..nres - 2][k - (j - 1)] == old(res[j + 1..nres])[k - (j - 1)];
  }

  lemma Started(s: seq<Ref>)
    ensures s != [] ==> PushAll(s[..1], s[1..]) == Reduced(s)
    ensures s == [] ==> Reduced(s) == []
  {
    if s != [] { assert Push([], s[0]) == s[..1]; }
  }

  /** What the step at j makes of the path that is left. */
  lemma Advance(s: seq<Ref>, j: nat)
    requires j < |s|
    ensures if TrackbackAt(s, j) then
              var t := Collapse(s, j);
              j - 1 < |t| && PushAll(t[..j], t[j..]) == PushAll(s[..j + 1], s[j + 1..])
            else if j + 1 < |s| then PushAll(s[..j + 2], s[j + 2..]) == PushAll(s[..j + 1], s[j + 1..])
            else PushAll(s[..j + 1], s[j + 1..]) == s
  {
    if j + 1 < |s| {
      assert s[j + 1..][1..] == s[j + 2..];
      if TrackbackAt(s, j) {
        assert s[..j + 1][..j] == s[..j];
        assert Collapse(s, j)[..j] == s[..j] && Collapse(s, j)[j..] == s[j + 2..];
      } else {
        assert s[..j + 1] + [s[j + 1]] == s[..j + 2];
      }
    } else {
      assert s[..j + 1] == s;
    }
  }

  /** The old path without its last polygon, where the new one begins, and as much of the new as there is
      room for. */
  function Joined(path: seq<Ref>, found: seq<Ref>, room: nat): seq<Ref>
    requires path != [] && |path| <= room
  {
    var n := |path| - 1;
    path[..n] + if n + |found| > room then found[..room - n] else found
  }

  /** That is, the two paths in one piece, cut off where the room ends. */
  lemma CutToRoom(path: seq<Ref>, found: seq<Ref>, room: nat)
    requires path != [] && |path| <= room
    ensures var all := path[..|path| - 1] + found;
      Joined(path, found, room) == if |all| > room then all[..room] else all
  {
  }

  /** The merge in updateMoveRequest: `path` is the corridor, and res holds the `found` polygons of the new
      path. They fit together only if the new path begins where the old one ends. */
  method MergePaths(path: seq<Ref>, res: array<Ref>, found: nat) returns (valid: bool, nres: nat)
    requires path != [] && |path| <= res.Length && found <= res.Length
    modifies res
    ensures valid <==> found > 0 && path[|path| - 1] == old(res[..found])[0]
    ensures nres <= res.Length
    ensures valid && |path| > 1 ==> res[..nres] == Reduced(Joined(path, old(res[..found]), res.Length))
    ensures valid && |path| == 1 ==> res[..nres] == old(res[..found])
  {
    nres := found;
    valid := nres > 0;
    if valid && path[|path| - 1] != res[0] { valid := false; }
    if valid && |path| > 1 {
      var n := |path| - 1;
      if n + nres > res.Length { nres := res.Length - n; }
      assert res[..nres] == res[..found][..nres] && res[..found][..found] == res[..found];
      PutInFront(path, res, nres);
      nres := nres + n;
      nres := RemoveTrackbacks(res, nres);
    }
  }

  /** The memmove that makes room for the old path, and the memcpy that puts it there. */
  method PutInFront(path: seq<Ref>, res: array<Ref>, nres: nat)
    requires path != [] && |path| - 1 + nres <= res.Length
    modifies res
    ensures res[..|path| - 1 + nres] == path[..|path| - 1] + old(res[..nres])
  {
    var n := |path| - 1;
    ghost var before := res[..nres];
    MemMove(res, n, 0, nres);
    assert forall k :: 0 <= k < nres ==> res[n + k] == res[n..n + nres][k] == before[k];
    CopyIn(res, path[..n]);
  }

  /** memcpy to the beginning of the array */
  method CopyIn(res: array<Ref>, s: seq<Ref>)
    requires |s| <= res.Length
    modifies res
    ensures forall k :: 0 <= k < res.Length ==> res[k] == if k < |s| then s[k] else old(res[k])
  {
    forall k | 0 <= k < |s| { res[k] := s[k]; }
  }

  /** What is merged of two walks is a walk: it begins where the agent is, each of its steps is a step of one
      of the two, and it ends where the new path ends, or where it was cut off. */
  lemma MergedPath(path: seq<Ref>, found: seq<Ref>, room: nat)
    requires path != [] && |path| <= room && found != [] && path[|path| - 1] == found[0]
    ensures var r := Reduced(Joined(path, found, room));
      && r != [] && NoTrackback(r) && r[0] == path[0]
      && r[|r| - 1] == found[if |path| - 1 + |found| > room then room - |path| else |found| - 1]
      && forall i :: 0 <= i < |r| - 1 ==> Follows(path, r[i], r[i + 1]) || Follows(found, r[i], r[i + 1])
  {
    var joined := Joined(path, found, room);
    var r := Reduced(joined);
    ReducedPath(joined);
    forall i | 0 <= i < |r| - 1 ensures Follows(path, r[i], r[i + 1]) || Follows(found, r[i], r[i + 1]) {
      assert Follows(joined, r[i], r[i + 1]);
      var k :| 0 <= k < |joined| - 1 && joined[k] == r[i] && joined[k + 1] == r[i + 1];
      if k < |path| - 1 {
        assert path[k] == r[i] && path[k + 1] == r[i + 1];
      } else {
        assert found[k - (|path| - 1)] == r[i] && found[k + 1 - (|path| - 1)] == r[i + 1];
      }
    }
  }
}

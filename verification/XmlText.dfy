/** Text in XML documents: the printer escapes it, the parser cuts it out, and a string pair un-escapes it in
    place. Chars stand for bytes. */
module XmlText {
  import JsonReader
  import JsonTheorems
  import opened Wrappers
  import opened Bytes

  const CR := '\r'
  const LF := '\n'
  const U32 := 0x1_0000_0000

  datatype Entity = Entity(pattern: string, value: char)

  const ENTITIES := [Entity("quot", '"'), Entity("amp", '&'), Entity("apos", '\''),
    Entity("lt", '<'), Entity("gt", '>')]

  // ----- escaping

  /** All entities are flagged in attributes; in text, only those that are not quotes. */
  predicate Flagged(c: char, restricted: bool) {
    c == '&' || c == '<' || c == '>' || (!restricted && (c == '"' || c == '\''))
  }

  /** The entity that stands for c. */
  function EntityOf(c: char): (i: nat)
    ensures i < 5
  {
    if c == '"' then 0 else if c == '&' then 1 else if c == '\'' then 2 else if c == '<' then 3 else 4
  }

  function EntityText(c: char): string {
    "&" + ENTITIES[EntityOf(c)].pattern + ";"
  }

  function Escaped(s: string, restricted: bool): string {
    if s == "" then ""
    else (if Flagged(s[0], restricted) then EntityText(s[0]) else [s[0]]) + Escaped(s[1..], restricted)
  }

  lemma {:induction false} EscapedAppend(a: string, b: string, restricted: bool)
    ensures Escaped(a + b, restricted) == Escaped(a, restricted) + Escaped(b, restricted)
  {
    hide Flagged, EntityText;
    if a == "" { assert a + b == b; } else {
      assert (a + b)[1..] == a[1..] + b;
      EscapedAppend(a[1..], b, restricted);
    }
  }

  lemma {:induction false} EscapedPlain(s: string, restricted: bool)
    requires forall i :: 0 <= i < |s| ==> !Flagged(s[i], restricted)
    ensures Escaped(s, restricted) == s
  {
    hide Flagged, EntityText;
    if s != "" { EscapedPlain(s[1..], restricted); }
  }

  class XMLPrinter {
    var buffer: string
    const processEntities: bool

    constructor (processEntities: bool)
      ensures buffer == "" && this.processEntities == processEntities
    {
      buffer := "";
      this.processEntities := processEntities;
    }

    /** Runs of bytes between entities are written whole. */
    method PrintString(s: string, restricted: bool)
      requires NUL !in s
      modifies this
      ensures buffer == old(buffer) + if processEntities then Escaped(s, restricted) else s
    {
      hide Flagged, EntityText, Escaped;
      if processEntities {
        var p, q := 0, 0;
        while q < |s|
          invariant 0 <= p <= q <= |s|
          invariant buffer + Escaped(s[p..], restricted) == old(buffer) + Escaped(s, restricted)
          invariant forall i :: p <= i < q ==> !Flagged(s[i], restricted)
        {
          if Flagged(s[q], restricted) {
            Flush(s, p, q, restricted);
            buffer := buffer + s[p..q];
            p := q;
            buffer := buffer + EntityText(s[q]);
            p := p + 1;
          }
          q := q + 1;
        }
        EscapedPlain(s[p..], restricted);
        if p < q { buffer := buffer + s[p..q]; }
      } else {
        buffer := buffer + s;
      }
    }
  }

  lemma Flush(s: string, p: nat, q: nat, restricted: bool)
    requires p <= q < |s| && Flagged(s[q], restricted)
    requires forall i :: p <= i < q ==> !Flagged(s[i], restricted)
    ensures Escaped(s[p..], restricted) == s[p..q] + EntityText(s[q]) + Escaped(s[q + 1..], restricted)
  {
    hide Flagged, EntityText;
    EscapedPlain(s[p..q], restricted);
    assert s[p..] == s[p..q] + s[q..];
    EscapedAppend(s[p..q], s[q..], restricted);
    assert s[q..][1..] == s[q + 1..];
  }

  // ----- one step of un-escaping, told by what is left to read

  function Entity5(u: string, i: nat): Option<(char, nat)>
    requires u != "" && i <= 5
    decreases 5 - i
  {
    if i == 5 then None
    else
      var n := |ENTITIES[i].pattern|;
      if |u| > n + 1 && u[1..n + 1] == ENTITIES[i].pattern && u[n + 1] == ';' then Some((ENTITIES[i].value, n + 2))
      else Entity5(u, i + 1)
  }

  function Semicolon(u: string, i: nat): (r: Option<nat>)
    requires i <= |u|
    ensures r.Some? ==> i <= r.value < |u| && u[r.value] == ';'
    decreases |u| - i
  {
    if i == |u| then None else if u[i] == ';' then Some(i) else Semicolon(u, i + 1)
  }

  function Wrap(n: nat): nat {
    n % U32
  }

  function DigitOf(c: char, base: nat): Option<nat> {
    if base == 16 || '0' <= c <= '9' then HexValue(c) else None
  }

  /** The digits are read from the last one back to the first `stop`, with 32-bit arithmetic. */
  function Backwards(u: string, i: nat, stop: char, base: nat, mult: nat, ucs: nat): Option<nat>
    requires i < |u|
  {
    if u[i] == stop then Some(ucs)
    else
      match DigitOf(u[i], base)
      case None => None
      case Some(digit) => if i == 0 then None
        else Backwards(u, i - 1, stop, base, Wrap(mult * base), ucs + Wrap(mult * digit))
  }

  /** ConvertUTF32ToUTF8 */
  function Utf8(ucs: nat): (r: string)
    ensures |r| <= 4 && (ucs == 0 ==> |r| == 1)
  {
    if ucs < 0x80 then [Byte(ucs)]
    else if ucs < 0x800 then [Byte(0xC0 + ucs / 64), Byte(0x80 + ucs % 64)]
    else if ucs < 0x1_0000 then [Byte(0xE0 + ucs / 4096), Byte(0x80 + ucs / 64 % 64), Byte(0x80 + ucs % 64)]
    else if ucs < 0x20_0000 then
      [Byte(0xF0 + ucs / 0x4_0000), Byte(0x80 + ucs / 4096 % 64), Byte(0x80 + ucs / 64 % 64), Byte(0x80 + ucs % 64)]
    else ""
  }

  /** GetCharacterRef: the bytes, and how far to move on. */
  function CharacterRef(u: string): (r: Option<(string, nat)>)
    requires |u| >= 2 && u[0] == '&' && u[1] == '#'
    ensures r.Some? ==> |r.value.0| <= r.value.1 <= |u| && r.value.1 > 0
  {
    if |u| == 2 then Some(("", 1))
    else
      var hex := u[2] == 'x';
      if hex && |u| == 3 then None
      else
        match Semicolon(u, if hex then 3 else 2)
        case None => None
        case Some(k) =>
          match Backwards(u, k - 1, if hex then 'x' else '#', if hex then 16 else 10, 1, 0)
          case None => None
          case Some(ucs) => Some((Utf8(ucs), k + 1))
  }

  datatype Mode = Mode(entities: bool, newlines: bool)

  const TEXT_ELEMENT := Mode(true, true)
  const ATTRIBUTE_VALUE := Mode(true, true)

  /** What the step writes and how far it reads. Where an entity is not recognised it writes nothing and moves
      on, so that what stood at the write pointer stays: `here`. */
  function Step(u: string, here: char, mode: Mode): (r: (string, nat))
    requires u != ""
    ensures |r.0| <= r.1 <= |u| && r.1 > 0
  {
    if mode.newlines && u[0] == CR then ([LF], if |u| > 1 && u[1] == LF then 2 else 1)
    else if mode.newlines && u[0] == LF then ([LF], if |u| > 1 && u[1] == CR then 2 else 1)
    else if mode.entities && u[0] == '&' then
      if |u| > 1 && u[1] == '#' then
        match CharacterRef(u)
        case None => (['&'], 1)
        case Some((bytes, n)) => (bytes, n)
      else
        match Entity5(u, 0)
        case None => ([here], 1)
        case Some((c, n)) => ([c], n)
    else ([u[0]], 1)
  }

  /** What GetStr makes of the text t from position p on, `out` being written. */
  function Unescaped(t: string, p: nat, out: string, mode: Mode): (r: string)
    requires |out| <= p <= |t|
    ensures |r| <= |t|
    decreases |t| - p
  {
    if p == |t| then out
    else
      var (text, n) := Step(t[p..], t[|out|], mode);
      Unescaped(t, p + n, out + text, mode)
  }

  // ----- in place

  /** Text in memory, with a NUL behind it. */
  ghost predicate TextAt(mem: array<char>, p: int, end: int)
    reads mem
  {
    0 <= p <= end < mem.Length && mem[end] == NUL && NUL !in mem[p..end]
  }

  lemma NulEnds(mem: array<char>, p: int, end: int, i: int)
    requires TextAt(mem, p, end) && p <= i <= end
    ensures mem[i] == NUL <==> i == end
    ensures i < end ==> mem[p..end][i - p] == mem[i]
  {
    if i < end { assert mem[p..end][i - p] in mem[p..end]; }
  }

  /** strchr for the semicolon; `base` is where the reference begins. */
  method FindSemicolon(mem: array<char>, from: int, end: int, ghost base: int) returns (r: Option<int>)
    requires TextAt(mem, base, end) && base <= from <= end
    ensures Semicolon(mem[base..end], from - base) == if r.None? then None else Some(r.value - base)
    ensures r.Some? ==> from <= r.value < end
  {
    var i := from;
    NulEnds(mem, base, end, i);
    while mem[i] != NUL
      invariant from <= i <= end && (mem[i] == NUL <==> i == end)
      invariant Semicolon(mem[base..end], from - base) == Semicolon(mem[base..end], i - base)
      decreases end - i
    {
      NulEnds(mem, base, end, i);
      if mem[i] == ';' { return Some(i); }
      i := i + 1;
      NulEnds(mem, base, end, i);
    }
    return None;
  }

  /** The loop over the digits, from position `last` back. */
  method ReadBackwards(mem: array<char>, p: int, end: int, last: int, stop: char, base: nat) returns (ucs: Option<nat>)
    requires TextAt(mem, p, end) && p < last < end && (mem[p + 1] == stop || (p + 2 <= last && mem[p + 2] == stop))
    ensures Backwards(mem[p..end], last - p, stop, base, 1, 0) == ucs
  {
    hide Wrap;
    var q, total, mult := last, 0, 1;
    while mem[q] != stop
      invariant p < q <= last && total >= 0 && mult >= 0
      invariant mem[p + 1] == stop || (p + 2 <= q && mem[p + 2] == stop)
      invariant Backwards(mem[p..end], last - p, stop, base, 1, 0)
        == Backwards(mem[p..end], q - p, stop, base, mult, total)
      decreases q
    {
      NulEnds(mem, p, end, q);
      var digit := DigitOf(mem[q], base);
      if digit == None { return None; }
      total := total + Wrap(mult * digit.value);
      mult := Wrap(mult * base);
      q := q - 1;
    }
    NulEnds(mem, p, end, q);
    ucs := Some(total);
  }

  method GetCharacterRef(mem: array<char>, p: int, end: int) returns (adjusted: Option<int>, value: string)
    requires TextAt(mem, p, end) && p + 2 <= end && mem[p] == '&' && mem[p + 1] == '#'
    ensures match CharacterRef(mem[p..end])
      case None => adjusted == None
      case Some((bytes, n)) => adjusted == Some(p + n) && value == bytes
  {
    hide Utf8, Backwards, Semicolon;
    NulEnds(mem, p, end, p + 2);
    if mem[p + 2] == NUL { return Some(p + 1), ""; }
    var hex := mem[p + 2] == 'x';
    var from := if hex then p + 3 else p + 2;
    NulEnds(mem, p, end, from);
    if mem[from] == NUL { return None, ""; }
    var semicolon := FindSemicolon(mem, from, end, p);
    if semicolon == None { return None, ""; }
    var ucs := ReadBackwards(mem, p, end, semicolon.value - 1, if hex then 'x' else '#', if hex then 16 else 10);
    if ucs == None { return None, ""; }
    value := Utf8(ucs.value);
    adjusted := Some(semicolon.value + 1);
  }

  /** The loop over the entity table. */
  method FindEntity(mem: array<char>, p: int, end: int) returns (r: Option<Entity>)
    requires TextAt(mem, p, end) && p < end
    ensures Entity5(mem[p..end], 0) == if r.None? then None else Some((r.value.value, |r.value.pattern| + 2))
  {
    hide Entity5;
    var i := 0;
    while i < 5
      invariant 0 <= i <= 5 && Entity5(mem[p..end], 0) == Entity5(mem[p..end], i)
    {
      var entity := ENTITIES[i];
      var n := |entity.pattern|;
      EntityStep(mem[p..end], i);
      SliceOf(mem, p, end, n + 1);
      if end - p > n + 1 && mem[p + 1..p + n + 1] == entity.pattern && mem[p + n + 1] == ';' {
        return Some(entity);
      }
      i := i + 1;
    }
    EntityStep(mem[p..end], 5);
    return None;
  }

  lemma SliceOf(mem: array<char>, p: int, end: int, n: int)
    requires 0 <= p < end <= mem.Length && n >= 1
    ensures n < end - p ==> mem[p..end][1..n] == mem[p + 1..p + n] && mem[p..end][n] == mem[p + n]
  {
    if n < end - p {
      forall j | 0 <= j < n - 1 ensures mem[p..end][1..n][j] == mem[p + 1..p + n][j] {}
    }
  }

  lemma EntityStep(u: string, i: nat)
    requires u != "" && i <= 5
    ensures Entity5(u, i) ==
            if i == 5 then None
            else
              var n := |ENTITIES[i].pattern|;
              if |u| > n + 1 && u[1..n + 1] == ENTITIES[i].pattern && u[n + 1] == ';'
                then Some((ENTITIES[i].value, n + 2))
              else Entity5(u, i + 1)
  {
  }

  /** One turn of the loop in GetStr. The write pointer q never gets ahead of the read pointer p. */
  method Turn(mem: array<char>, p: int, q: int, end: int, mode: Mode) returns (p': int, q': int)
    requires TextAt(mem, p, end) && 0 <= q <= p < end
    modifies mem
    ensures var (text, n) := Step(old(mem[p..end]), old(mem[q]), mode);
      && p' == p + n && q' == q + |text| && q' <= p' <= end && mem[q..q'] == text
    ensures forall k :: 0 <= k < mem.Length && !(q <= k < q') ==> mem[k] == old(mem[k])
  {
    hide CharacterRef, Entity5;
    NulEnds(mem, p, end, p);
    NulEnds(mem, p, end, p + 1);
    if mode.newlines && mem[p] == CR {
      p' := if mem[p + 1] == LF then p + 2 else p + 1;
      mem[q] := LF;
      q' := q + 1;
    } else if mode.newlines && mem[p] == LF {
      p' := if mem[p + 1] == CR then p + 2 else p + 1;
      mem[q] := LF;
      q' := q + 1;
    } else if mode.entities && mem[p] == '&' {
      if mem[p + 1] == '#' {
        p', q' := PutCharacterRef(mem, p, q, end);
      } else {
        var entity := FindEntity(mem, p, end);
        if entity.Some? {
          p' := p + |entity.value.pattern| + 2;
          mem[q] := entity.value.value;
          q' := q + 1;
        } else {
          p', q' := p + 1, q + 1;
        }
      }
    } else {
      mem[q] := mem[p];
      p', q' := p + 1, q + 1;
    }
  }

  method PutCharacterRef(mem: array<char>, p: int, q: int, end: int) returns (p': int, q': int)
    requires TextAt(mem, p, end) && 0 <= q <= p && p + 2 <= end && mem[p] == '&' && mem[p + 1] == '#'
    modifies mem
    ensures match old(CharacterRef(mem[p..end]))
      case None => p' == p + 1 && q' == q + 1 && mem[q] == '&'
      case Some((bytes, n)) => p' == p + n && q' == q + |bytes| && mem[q..q'] == bytes
    ensures forall k :: 0 <= k < mem.Length && !(q <= k < q') ==> mem[k] == old(mem[k])
  {
    hide CharacterRef;
    var adjusted, value := GetCharacterRef(mem, p, end);
    if adjusted == None {
      mem[q] := mem[p];
      p', q' := p + 1, q + 1;
    } else {
      p' := adjusted.value;
      forall k | 0 <= k < |value| { mem[q + k] := value[k]; }
      q' := q + |value|;
    }
  }

  /** The text t is un-escaped up to p; what was written so far ends at q, and what stands from there on is as
      it was. */
  ghost predicate Halfway(mem: array<char>, t: string, start: int, p: int, q: int, end: int, mode: Mode)
    reads mem
  {
    && 0 <= start <= q <= p <= end < mem.Length && |t| == end - start && mem[end] == NUL && NUL !in t
    && mem[q..end] == t[q - start..]
    && Unescaped(t, p - start, mem[start..q], mode) == Unescaped(t, 0, "", mode)
  }

  method TurnOn(mem: array<char>, ghost t: string, start: int, p: int, q: int, end: int, mode: Mode)
    returns (p': int, q': int)
    requires Halfway(mem, t, start, p, q, end, mode) && p < end
    modifies mem
    ensures Halfway(mem, t, start, p', q', end, mode) && p' > p
    ensures forall k :: 0 <= k < start || end < k < mem.Length ==> mem[k] == old(mem[k])
  {
    hide Step, Unescaped;
    ghost var written := mem[start..q];
    StillToRead(mem, p, q, end, t, start);
    OneStep(t, p - start, written, mode);
    p', q' := Turn(mem, p, q, end, mode);
    assert mem[start..q'] == written + mem[q..q'];
    TailStays(old(mem[..]), mem[..], t[q - start..], q, q', end);
  }

  lemma TailStays(m: seq<char>, m': seq<char>, u: string, q: nat, q': nat, end: nat)
    requires q <= q' <= end <= |m| == |m'| && m[q..end] == u && forall k :: q' <= k < end ==> m'[k] == m[k]
    ensures m'[q'..end] == u[q' - q..]
  {
    assert forall k :: q' <= k < end ==> m[k] == m[q..end][k - q];
  }

  lemma OneStep(t: string, p: nat, written: string, mode: Mode)
    requires |written| <= p < |t|
    ensures var (text, n) := Step(t[p..], t[|written|], mode);
      Unescaped(t, p, written, mode) == Unescaped(t, p + n, written + text, mode)
  {
    hide Step;
  }

  class StrPair {
    const mem: array<char>
    const start: int
    var end: int
    var mode: Mode
    var flush: bool

    /** The pair spans a piece of a document, without a NUL in it until it is flushed. */
    ghost predicate Valid()
      reads this, mem
    {
      0 <= start <= end < mem.Length && (flush ==> NUL !in mem[start..end])
    }

    constructor (mem: array<char>, start: int, end: int, mode: Mode)
      requires 0 <= start <= end < mem.Length && NUL !in mem[start..end]
      ensures Valid() && flush && this.mem == mem && this.start == start && this.end == end && this.mode == mode
    {
      this.mem, this.start, this.end, this.mode, flush := mem, start, end, mode, true;
    }

    /** Un-escapes the text in place, the first time. Nothing before it or behind its end is touched. */
    method GetStr() returns (length: int)
      requires Valid() && flush
      modifies this, mem
      ensures Valid() && !flush && 0 <= length <= end - start && end == old(end)
      ensures mem[start..start + length] == Unescaped(old(mem[start..end]), 0, "", old(mode))
        && mem[start + length] == NUL
      ensures forall k :: 0 <= k < start || end < k < mem.Length ==> mem[k] == old(mem[k])
    {
      hide Unescaped;
      ghost var t := mem[start..end];
      mem[end] := NUL;
      flush := false;
      var p, q := start, start;
      assert mem[start..start] == "" && mem[start..end] == t == t[0..];
      while p < end
        invariant Halfway(mem, t, start, p, q, end, mode)
        invariant forall k :: 0 <= k < start || end < k < mem.Length ==> mem[k] == old(mem[k])
        modifies mem
      {
        p, q := TurnOn(mem, t, start, p, q, end, mode);
      }
      UnescapedEnd(t, mem[start..q], mode);
      mem[q] := NUL;
      length := q - start;
    }
  }

  lemma UnescapedEnd(t: string, written: string, mode: Mode)
    requires |written| <= |t|
    ensures Unescaped(t, |t|, written, mode) == written
  {
  }

  lemma StillToRead(mem: array<char>, p: int, q: int, end: int, t: string, start: int)
    requires 0 <= start <= q <= p < end < mem.Length && |t| == end - start && mem[q..end] == t[q - start..]
    requires mem[end] == NUL && NUL !in t
    ensures mem[p..end] == t[p - start..] && mem[q] == t[q - start] && TextAt(mem, p, end)
  {
    assert mem[p..end] == mem[q..end][p - q..];
    assert mem[q] == mem[q..end][0];
    forall c | c in mem[p..end] ensures c in t {}
  }

  // ----- the parser cuts out what the printer wrote

  ghost predicate TagAt(t: string, k: int, endTag: string) {
    0 <= k && k + |endTag| <= |t| && t[k..k + |endTag|] == endTag
  }

  lemma TagHere(mem: array<char>, p: int, end: int, i: int, endTag: string)
    requires 0 <= p <= i < end <= mem.Length && endTag != ""
    ensures TagAt(mem[p..end], i - p, endTag) <==>
            mem[i] == endTag[0] && i + |endTag| <= end && mem[i..i + |endTag|] == endTag
  {
    if i + |endTag| <= end {
      var t, here := mem[p..end][i - p..i - p + |endTag|], mem[i..i + |endTag|];
      assert forall j :: 0 <= j < |endTag| ==> t[j] == here[j];
      assert t == here;
      assert mem[i..i + |endTag|][0] == mem[i];
    }
  }

  /** ParseText: where the first end tag begins, if there is one. */
  method ParseText(mem: array<char>, p: int, end: int, endTag: string) returns (r: Option<int>)
    requires TextAt(mem, p, end) && endTag != "" && NUL !in endTag
    ensures r.None? ==> forall k :: !TagAt(mem[p..end], k, endTag)
    ensures r.Some? ==> p <= r.value && TagAt(mem[p..end], r.value - p, endTag)
    ensures r.Some? ==> forall k :: k < r.value - p ==> !TagAt(mem[p..end], k, endTag)
  {
    ghost var t := mem[p..end];
    var i := p;
    NulEnds(mem, p, end, i);
    while mem[i] != NUL
      invariant p <= i <= end && (mem[i] == NUL <==> i == end)
      invariant forall k :: k < i - p ==> !TagAt(t, k, endTag)
      decreases end - i
    {
      TagHere(mem, p, end, i, endTag);
      if mem[i] == endTag[0] && i + |endTag| <= end && mem[i..i + |endTag|] == endTag { return Some(i); }
      i := i + 1;
      NulEnds(mem, p, end, i);
    }
    return None;
  }

  lemma EntityTextHasNo(c: char, e: char)
    requires c == NUL || (Flagged(c, false) && c != '&')
    ensures c !in EntityText(e)
  {
  }

  lemma {:induction false} EscapedHasNo(s: string, c: char, restricted: bool)
    requires (Flagged(c, restricted) && c != '&') || (c == NUL && NUL !in s)
    ensures c !in Escaped(s, restricted)
  {
    if s != "" {
      EntityTextHasNo(c, s[0]);
      hide EntityText;
      EscapedHasNo(s[1..], c, restricted);
    }
  }

  // ----- un-escaping undoes escaping

  /** How many chars make up what s begins with: a line end may take two. */
  function Unit(s: string): (n: nat)
    requires s != ""
    ensures 1 <= n <= |s|
  {
    if (s[0] == CR || s[0] == LF) && |s| > 1 && (s[1] == CR || s[1] == LF) && s[1] != s[0] then 2 else 1
  }

  function Normal(c: char): char {
    if c == CR then LF else c
  }

  /** Line ends as the parser normalises them. */
  function Newlines(s: string): string {
    if s == "" then "" else [Normal(s[0])] + Newlines(s[Unit(s)..])
  }

  lemma {:induction false} NewlinesKeepIff(s: string)
    ensures Newlines(s) == s <==> CR !in s
    ensures CR !in Newlines(s)
    decreases |s|
  {
    if s != "" {
      NewlinesKeepIff(s[Unit(s)..]);
      if Unit(s) == 1 {
        assert s == [s[0]] + s[1..];
      } else {
        assert s[0] in s && s[1] in s;
      }
    }
  }

  lemma EntityReads(c: char, rest: string, here: char)
    requires Flagged(c, false)
    ensures Step(EntityText(c) + rest, here, TEXT_ELEMENT) == ([c], |EntityText(c)|)
  {
    hide Entity5;
    var u, i := EntityText(c) + rest, EntityOf(c);
    var pattern := ENTITIES[i].pattern;
    assert u == "&" + pattern + (";" + rest);
    assert u[1..|pattern| + 1] == pattern && u[|pattern| + 1] == ';';
    assert u[1] == pattern[0] != '#';
    EntityFound(u, i);
  }

  /** The patterns differ at one of the first two places, so no other one can match. */
  lemma EntityFound(u: string, i: nat)
    requires i < 5 && u != ""
    requires var n := |ENTITIES[i].pattern|; |u| > n + 1 && u[1..n + 1] == ENTITIES[i].pattern && u[n + 1] == ';'
    ensures Entity5(u, 0) == Some((ENTITIES[i].value, |ENTITIES[i].pattern| + 2))
  {
    hide Entity5;
    var n := |ENTITIES[i].pattern|;
    assert u[1] == u[1..n + 1][0] && u[2] == u[1..n + 1][1];
    var j := i;
    EntityStep(u, i);
    while j > 0
      invariant 0 <= j <= i && Entity5(u, j) == Some((ENTITIES[i].value, n + 2))
    {
      j := j - 1;
      EntityStep(u, j);
      PatternsDiffer(j, i);
      if |u| > |ENTITIES[j].pattern| + 1 {
        assert u[1..|ENTITIES[j].pattern| + 1][0] == u[1] && u[1..|ENTITIES[j].pattern| + 1][1] == u[2];
      }
    }
  }

  lemma PatternsDiffer(j: nat, i: nat)
    requires j < i < 5
    ensures var p, q := ENTITIES[j].pattern, ENTITIES[i].pattern; |p| > 1 && |q| > 1 && (p[0] != q[0] || p[1] != q[1])
  {
  }

  lemma FirstEscaped(s: string, restricted: bool)
    requires s != ""
    ensures Escaped(s, restricted) != "" && Escaped(s, restricted)[0] == if Flagged(s[0], restricted) then '&' else s[0]
  {
  }

  lemma StepPlain(u: string, here: char)
    requires u != "" && u[0] != '&'
    ensures Step(u, here, TEXT_ELEMENT) == ([Normal(u[0])], Unit(u))
  {
    hide CharacterRef, Entity5;
  }

  lemma EscapedPlainFirst(s: string, restricted: bool)
    requires s != "" && !Flagged(s[0], restricted)
    ensures Escaped(s, restricted) == [s[0]] + Escaped(s[1..], restricted)
  {
  }

  lemma StepReadsPlain(s: string, restricted: bool, here: char)
    requires s != "" && !Flagged(s[0], restricted)
    ensures var u, rest := Escaped(s, restricted), Escaped(s[Unit(s)..], restricted);
      |u| > |rest| && Step(u, here, TEXT_ELEMENT) == ([Normal(s[0])], |u| - |rest|) && u[|u| - |rest|..] == rest
  {
    hide Escaped, Step, Normal;
    var u := Escaped(s, restricted);
    EscapedPlainFirst(s, restricted);
    StepPlain(u, here);
    if |s| > 1 {
      FirstEscaped(s[1..], restricted);
      if Unit(s) == 2 {
        EscapedPlainFirst(s[1..], restricted);
        assert s[1..][1..] == s[2..];
        assert u == [s[0], s[1]] + Escaped(s[2..], restricted);
      }
    } else {
      EscapedNothing(restricted);
    }
  }

  /** What one step makes of escaped text. */
  lemma StepReads(s: string, restricted: bool, here: char)
    requires s != ""
    ensures var u, rest := Escaped(s, restricted), Escaped(s[Unit(s)..], restricted);
      |u| > |rest| && Step(u, here, TEXT_ELEMENT) == ([Normal(s[0])], |u| - |rest|) && u[|u| - |rest|..] == rest
  {
    hide EntityText, Step;
    if Flagged(s[0], restricted) {
      EntityReads(s[0], Escaped(s[1..], restricted), here);
    } else {
      StepReadsPlain(s, restricted, here);
    }
  }

  lemma UnitReads(s: string, restricted: bool, t: string, p: nat, out: string) returns (p': nat)
    requires s != "" && |out| <= p <= |t| && t[p..] == Escaped(s, restricted)
    ensures |out| + 1 <= p' <= |t| && t[p'..] == Escaped(s[Unit(s)..], restricted)
    ensures Unescaped(t, p, out, TEXT_ELEMENT) == Unescaped(t, p', out + [Normal(s[0])], TEXT_ELEMENT)
  {
    hide Step, Unescaped, Escaped, Unit, Normal;
    FirstEscaped(s, restricted);
    StepReads(s, restricted, t[|out|]);
    OneStep(t, p, out, TEXT_ELEMENT);
    p' := |t| - |Escaped(s[Unit(s)..], restricted)|;
    assert t[p..][p' - p..] == t[p'..];
  }

  lemma {:induction false} UnescapedEscaped(s: string, restricted: bool, t: string, p: nat, out: string)
    requires |out| <= p <= |t| && t[p..] == Escaped(s, restricted)
    ensures Unescaped(t, p, out, TEXT_ELEMENT) == out + Newlines(s)
    decreases |s|
  {
    hide Unescaped, Escaped, Newlines, Unit, Normal;
    NewlinesStep(s, out);
    if s == "" {
      EscapedNothing(restricted);
      UnescapedEnd(t, out, TEXT_ELEMENT);
    } else {
      var p' := UnitReads(s, restricted, t, p, out);
      UnescapedEscaped(s[Unit(s)..], restricted, t, p', out + [Normal(s[0])]);
    }
  }

  lemma EscapedNothing(restricted: bool)
    ensures Escaped("", restricted) == ""
  {
  }

  lemma NewlinesStep(s: string, out: string)
    ensures s == "" ==> out + Newlines(s) == out
    ensures s != "" ==> out + Newlines(s) == out + [Normal(s[0])] + Newlines(s[Unit(s)..])
  {
    hide Normal, Unit;
  }

  /** Text that is printed and parsed comes back with its line ends normalised, in text and in attributes; so
      it comes back unchanged exactly if it has no carriage return. */
  lemma PrintThenParse(s: string, restricted: bool)
    ensures Unescaped(Escaped(s, restricted), 0, "", TEXT_ELEMENT) == Newlines(s)
    ensures Unescaped(Escaped(s, restricted), 0, "", TEXT_ELEMENT) == s <==> CR !in s
  {
    assert Escaped(s, restricted)[0..] == Escaped(s, restricted);
    UnescapedEscaped(s, restricted, Escaped(s, restricted), 0, "");
    assert "" + Newlines(s) == Newlines(s);
    NewlinesKeepIff(s);
  }

  /** The end tag that stands behind printed text is the first one: `<` behind text, a quote behind an
      attribute. */
  lemma PrintedIsCutOut(s: string, restricted: bool, tag: char, rest: string)
    requires Flagged(tag, restricted) && tag != '&'
    ensures var printed := Escaped(s, restricted);
      var document := printed + [tag] + rest;
      TagAt(document, |printed|, [tag]) && forall k :: k < |printed| ==> !TagAt(document, k, [tag])
  {
    var printed := Escaped(s, restricted);
    var document := printed + [tag] + rest;
    EscapedHasNo(s, tag, restricted);
    assert document[|printed|..|printed| + 1] == [tag];
    forall k | k < |printed| ensures !TagAt(document, k, [tag]) {
      if k >= 0 { assert document[k..k + 1] == [printed[k]]; }
    }
  }

  // ----- numeric references

  predicate Digits(u: string, from: nat, to: nat, base: nat) {
    from <= to <= |u| && forall i :: from <= i < to ==> DigitOf(u[i], base).Some?
  }

  /** The number that u stands for between two positions. */
  function NumberOf(u: string, from: nat, to: nat, base: nat): nat
    requires Digits(u, from, to, base)
  {
    if from == to then 0 else NumberOf(u, from, to - 1, base) * base + DigitOf(u[to - 1], base).value
  }

  lemma BackwardsStep(u: string, i: nat, stop: char, base: nat, mult: nat, ucs: nat)
    requires 0 < i < |u| && DigitOf(u[i], base).Some? && u[i] != stop
    ensures Backwards(u, i, stop, base, mult, ucs) ==
            Backwards(u, i - 1, stop, base, Wrap(mult * base), ucs + Wrap(mult * DigitOf(u[i], base).value))
  {
  }

  /** The digits behind the mark at a, up to position i, are read as their number, whatever zeros lead them; the
      arithmetic does not wrap around where it matters. */
  lemma {:induction false} BackwardsNumber(u: string, a: nat, i: nat, base: nat, mult: nat, ucs: nat)
    requires a <= i < |u| && Digits(u, a + 1, i + 1, base) && DigitOf(u[a], base).None? && base > 0
    requires NumberOf(u, a + 1, i + 1, base) == 0 || mult < U32
    requires mult * NumberOf(u, a + 1, i + 1, base) < U32
    ensures Backwards(u, i, u[a], base, mult, ucs) == Some(ucs + mult * NumberOf(u, a + 1, i + 1, base))
    decreases i
  {
    hide Wrap, DigitOf, Backwards;
    if i == a {
      AtTheMark(u, i, u[a], base, mult, ucs);
    } else {
      var d := DigitOf(u[i], base).value;
      BackwardsStep(u, i, u[a], base, mult, ucs);
      Scaled(mult, NumberOf(u, a + 1, i, base), base, d);
      BackwardsNumber(u, a, i - 1, base, Wrap(mult * base), ucs + Wrap(mult * d));
    }
  }

  lemma AtTheMark(u: string, i: nat, stop: char, base: nat, mult: nat, ucs: nat)
    requires i < |u| && u[i] == stop
    ensures Backwards(u, i, stop, base, mult, ucs) == Some(ucs)
  {
  }

  /** Splitting off the last digit d of n * base + d. */
  lemma Scaled(mult: nat, n: nat, base: nat, d: nat)
    requires base > 0 && mult * (n * base + d) < U32
    ensures Wrap(mult * d) == mult * d
    ensures mult * (n * base + d) == Wrap(mult * base) * n + mult * d
    ensures n == 0 || Wrap(mult * base) == mult * base < U32
    ensures Wrap(mult * base) * n < U32
  {
    assert mult * (n * base + d) == mult * base * n + mult * d;
    if n > 0 { AtLeast(mult * base, n); AtLeast(mult * d, 1); }
  }

  lemma AtLeast(x: nat, n: nat)
    requires n > 0
    ensures x <= x * n
  {
  }

  lemma {:induction false} SemicolonAfter(u: string, i: nat, k: nat)
    requires i <= k < |u| && u[k] == ';' && forall j :: i <= j < k ==> u[j] != ';'
    ensures Semicolon(u, i) == Some(k)
    decreases k - i
  {
    if i < k { SemicolonAfter(u, i + 1, k); }
  }

  lemma Utf8AsInJson(n: nat)
    requires n <= 0x10_FFFF
    ensures Utf8(n) == JsonReader.Utf8(n)
  {
  }

  /** Whether u begins with a reference in decimal or hexadecimal digits that end at k. */
  predicate NumericAt(u: string, hex: bool, k: nat) {
    var a := if hex then 2 else 1;
    && a + 1 < k < |u| && u[..a + 1] == (if hex then "&#x" else "&#") && u[k] == ';'
    && Digits(u, a + 1, k, if hex then 16 else 10)
  }

  /** A numeric reference to any code point, decimal or hexadecimal in digits of either case and with any zeros
      before them, becomes its UTF-8 form (RFC 3629, section 3). */
  lemma NumericReference(u: string, hex: bool, k: nat)
    requires NumericAt(u, hex, k)
    requires NumberOf(u, if hex then 3 else 2, k, if hex then 16 else 10) <= 0x10_FFFF
    ensures u[0] == '&' && u[1] == '#'
    ensures var n := NumberOf(u, if hex then 3 else 2, k, if hex then 16 else 10);
      && CharacterRef(u) == Some((Utf8(n), k + 1))
      && JsonTheorems.DecodeUtf8(Utf8(n)) == Some(n)
  {
    hide Utf8, Backwards, NumberOf, CharacterRef, Semicolon, DigitOf;
    var base, a := if hex then 16 else 10, if hex then 2 else 1;
    var n := NumberOf(u, a + 1, k, base);
    assert u[..a + 1][0] == '&' && u[..a + 1][1] == '#' && (hex ==> u[..3][2] == 'x');
    NotDigits();
    NumberAhead(u, a, k, base);
    ReferenceReads(u, hex, k, n);
    Utf8AsInJson(n);
    JsonTheorems.Utf8IsShortest(n);
  }

  lemma NumberAhead(u: string, a: nat, k: nat, base: nat)
    requires a + 1 < k < |u| && u[k] == ';' && Digits(u, a + 1, k, base) && DigitOf(u[a], base).None? && base > 0
    requires NumberOf(u, a + 1, k, base) < U32
    ensures Semicolon(u, a + 1) == Some(k)
    ensures Backwards(u, k - 1, u[a], base, 1, 0) == Some(NumberOf(u, a + 1, k, base))
  {
    hide Backwards, NumberOf, Semicolon, DigitOf;
    NotDigits();
    SemicolonAfter(u, a + 1, k);
    BackwardsNumber(u, a, k - 1, base, 1, 0);
  }

  lemma NotDigits()
    ensures forall base :: DigitOf('x', base).None? && DigitOf('#', base).None? && DigitOf(';', base).None?
  {
  }

  lemma ReferenceReads(u: string, hex: bool, k: nat, ucs: nat)
    requires 2 < k < |u| && u[0] == '&' && u[1] == '#' && (hex <==> u[2] == 'x') && (hex ==> 3 < k)
    requires Semicolon(u, if hex then 3 else 2) == Some(k)
    requires Backwards(u, k - 1, if hex then 'x' else '#', if hex then 16 else 10, 1, 0) == Some(ucs)
    ensures CharacterRef(u) == Some((Utf8(ucs), k + 1))
  {
    hide Utf8, Backwards, Semicolon;
  }

  // ----- references as they are written

  /** The text writes the digits ds, hexadecimal ones each in either case. */
  predicate Writes(text: string, ds: seq<nat>, hex: bool) {
    |text| == |ds| > 0 &&
    forall i :: 0 <= i < |ds| ==> if hex then Spells(text[i], ds[i]) else ds[i] < 10 && text[i] == DECIMAL[ds[i]]
  }

  lemma DigitOfWritten(c: char, d: nat, hex: bool)
    requires if hex then Spells(c, d) else d < 10 && c == DECIMAL[d]
    ensures DigitOf(c, if hex then 16 else 10) == Some(d)
  {
    hide HexValue;
    if hex { HexDigit(c, d); } else { DecimalDigit(c, d); }
  }

  lemma {:induction false} NumberOfWritten(u: string, a: nat, ds: seq<nat>, n: nat, hex: bool)
    requires n <= |ds| && a + |ds| <= |u| && Writes(u[a..a + |ds|], ds, hex)
    ensures Digits(u, a, a + n, if hex then 16 else 10)
    ensures NumberOf(u, a, a + n, if hex then 16 else 10) == FromDigits(ds[..n], if hex then 16 else 10)
    decreases n
  {
    hide DigitOf;
    forall i | a <= i < a + |ds| ensures DigitOf(u[i], if hex then 16 else 10) == Some(ds[i - a]) {
      assert u[i] == u[a..a + |ds|][i - a];
      DigitOfWritten(u[i], ds[i - a], hex);
    }
    if n > 0 {
      NumberOfWritten(u, a, ds, n - 1, hex);
      assert ds[..n][..n - 1] == ds[..n - 1];
    }
  }

  lemma Parts(a: string, b: string, c: string)
    ensures var u := a + b + ";" + c;
      u[..|a|] == a && u[|a|..|a| + |b|] == b && u[|a| + |b|] == ';'
  {
    assert a + b + ";" + c == a + (b + (";" + c));
  }

  /** Any code point written in decimal or hexadecimal digits, of either case and with any zeros before them, is
      replaced by its UTF-8 form, whatever follows. */
  lemma WrittenReference(text: string, ds: seq<nat>, hex: bool, rest: string)
    requires Writes(text, ds, hex) && FromDigits(ds, if hex then 16 else 10) <= 0x10_FFFF
    ensures var u := (if hex then "&#x" else "&#") + text + ";" + rest;
      var n := FromDigits(ds, if hex then 16 else 10);
      && CharacterRef(u) == Some((Utf8(n), |u| - |rest|))
      && JsonTheorems.DecodeUtf8(Utf8(n)) == Some(n)
  {
    hide DigitOf, CharacterRef, Utf8, NumberOf, FromDigits;
    var mark := if hex then "&#x" else "&#";
    var u, a, k := mark + text + ";" + rest, |mark|, |mark| + |text|;
    Parts(mark, text, rest);
    NumberOfWritten(u, a, ds, |ds|, hex);
    assert ds[..|ds|] == ds;
    NumericReference(u, hex, k);
  }
}

/** JSON values as the library stores them.

    Text is a sequence of chars, each standing for one byte. An object is a list of members in strcmp
    order of their names, as the ordered map that holds them iterates. An array is a dense map from
    indices, hence a sequence. A real number is kept as the text that denotes it. */
module JsonValue {
  import opened Bytes

  const MAX_INT := 0x7FFF_FFFF
  const MAX_UINT := 0xFFFF_FFFF

  datatype Member = Member(name: string, value: Value)
  datatype Value =
    | Null
    | Int(i: int)
    | UInt(u: nat)
    | Real(text: string)
    | Str(s: string)
    | Bool(b: bool)
    | Array(elems: seq<Value>)
    | Object(members: seq<Member>)

  /** What a C string keeps of a sequence of bytes. */
  function CString(s: string): string {
    if s == "" || s[0] == NUL then "" else [s[0]] + CString(s[1..])
  }

  lemma {:induction false} CStringWhole(s: string)
    requires NUL !in s
    ensures CString(s) == s
  {
    if s != "" { CStringWhole(s[1..]); }
  }

  /** strcmp(a, b) < 0 */
  predicate Less(a: string, b: string) {
    b != "" && (a == "" || a[0] < b[0] || (a[0] == b[0] && Less(a[1..], b[1..])))
  }

  lemma {:induction false} LessIsOrder(a: string, b: string, c: string)
    ensures !Less(a, a)
    ensures Less(a, b) ==> !Less(b, a)
    ensures Less(a, b) && Less(b, c) ==> Less(a, c)
    ensures a == b || Less(a, b) || Less(b, a)
    decreases |a|
  {
    if a != "" && b != "" && c != "" {
      LessIsOrder(a[1..], b[1..], c[1..]);
      assert a == [a[0]] + a[1..] && b == [b[0]] + b[1..];
    } else if a != "" && b != "" {
      LessIsOrder(a[1..], b[1..], "");
      assert a == [a[0]] + a[1..] && b == [b[0]] + b[1..];
    } else if a != "" {
      LessIsOrder(a[1..], "", "");
    }
  }

  ghost predicate Ordered(ms: seq<Member>) {
    forall i, j :: 0 <= i < j < |ms| ==> Less(ms[i].name, ms[j].name)
  }

  /** The assignment object[name] = value. */
  function Put(ms: seq<Member>, name: string, value: Value): seq<Member> {
    if ms == [] || Less(name, ms[0].name) then [Member(name, value)] + ms
    else if name == ms[0].name then [Member(name, value)] + ms[1..]
    else [ms[0]] + Put(ms[1..], name, value)
  }

  /** An object stays in order, and an assignment changes exactly the member it names. */
  lemma {:induction false} PutIsUpdate(ms: seq<Member>, name: string, value: Value)
    requires Ordered(ms)
    ensures var ms' := Put(ms, name, value);
      && Ordered(ms')
      && forall m :: m in ms' <==> m == Member(name, value) || (m in ms && m.name != name)
  {
    if ms != [] && !Less(name, ms[0].name) {
      var rest := ms[1..];
      assert ms == [ms[0]] + rest;
      forall m | m in rest ensures Less(ms[0].name, m.name) {
        var i :| 0 <= i < |rest| && rest[i] == m;
        assert ms[i + 1] == m;
      }
      LessIsOrder(name, ms[0].name, name);
      LessIsOrder(ms[0].name, ms[0].name, name);
      if name != ms[0].name { PutIsUpdate(rest, name, value); }
      var tail := if name == ms[0].name then rest else Put(rest, name, value);
      var head := if name == ms[0].name then Member(name, value) else ms[0];
      OrderedCons(head, tail);
      assert Put(ms, name, value) == [head] + tail;
    } else {
      forall m | m in ms ensures Less(name, m.name) && m.name != name {
        LessIsOrder(name, ms[0].name, m.name);
        LessIsOrder(name, name, m.name);
      }
      OrderedCons(Member(name, value), ms);
    }
  }

  lemma OrderedCons(m: Member, ms: seq<Member>)
    requires Ordered(ms) && forall x :: x in ms ==> Less(m.name, x.name)
    ensures Ordered([m] + ms)
  {
    forall i, j | 0 <= i < j < |[m] + ms| ensures Less(([m] + ms)[i].name, ([m] + ms)[j].name) {
      assert ([m] + ms)[j] == ms[j - 1];
    }
  }

  /** Members read in order are appended. */
  lemma {:induction false} PutLast(ms: seq<Member>, name: string, value: Value)
    requires forall m :: m in ms ==> Less(m.name, name)
    ensures Put(ms, name, value) == ms + [Member(name, value)]
  {
    if ms != [] {
      LessIsOrder(ms[0].name, name, name);
      assert ms[0] in ms;
      assert ms == [ms[0]] + ms[1..];
      PutLast(ms[1..], name, value);
    }
  }
}

/** The tokens that stand for a value, and the value that the reader makes of them. */
module JsonTokens {
  import opened Bytes
  import opened JsonValue
  import opened JsonLexer
  import opened JsonReader
  import opened JsonText
  import opened Wrappers

  /** What the writers are given: integers of 32 bits that can be negated, strings that C can hold. A real
      number stands here for any text that the reader takes for a real number and for that one. */
  ghost predicate WellFormed(v: Value) {
    match v
    case Null => true
    case Bool(_) => true
    case Int(i) => -2147483647 <= i <= 2147483647
    case UInt(u) => u <= 4294967295
    case Real(text) => IsNumberText(text) && DecodeNumber(text) == Some(Real(text))
    case Str(s) => NUL !in s
    case Array(elems) => forall e :: e in elems ==> WellFormed(e)
    case Object(members) => Ordered(members) && forall m :: m in members ==> NUL !in m.name && WellFormed(m.value)
  }

  function TokensOf(v: Value): seq<Token> {
    match v
    case Null => [NullWord]
    case Int(i) => [Number(IntText(i))]
    case UInt(u) => [Number(IntText(u))]
    case Real(text) => [Number(text)]
    case Str(s) => [Quoted(Escape(s))]
    case Bool(b) => [if b then True else False]
    case Array(elems) =>
      [LBracket] + (if elems == [] then [RBracket] else TokensOf(elems[0]) + ElementTokens(elems[1..]))
    case Object(members) =>
      [LBrace] + (if members == [] then [RBrace] else PairTokens(members[0]) + MemberTokens(members[1..]))
  }

  /** The elements after the first, and the closing bracket. */
  function ElementTokens(elems: seq<Value>): seq<Token> {
    if elems == [] then [RBracket] else [Comma] + TokensOf(elems[0]) + ElementTokens(elems[1..])
  }

  function PairTokens(m: Member): seq<Token> {
    [Quoted(Escape(m.name)), Colon] + TokensOf(m.value)
  }

  function MemberTokens(members: seq<Member>): seq<Token> {
    if members == [] then [RBrace] else [Comma] + PairTokens(members[0]) + MemberTokens(members[1..])
  }

  /** The value that is read back: an unsigned integer that fits becomes signed, and an integer within nine
      of either limit becomes a real number. */
  function Canon(v: Value): Value {
    match v
    case Int(i) => CanonInt(i)
    case UInt(u) => CanonInt(u)
    case Array(elems) => Array(CanonElems(elems))
    case Object(members) => Object(CanonMembers(members))
    case _ => v
  }

  function CanonMember(m: Member): Member {
    Member(m.name, Canon(m.value))
  }

  function CanonElems(elems: seq<Value>): seq<Value> {
    seq(|elems|, i requires 0 <= i < |elems| => Canon(elems[i]))
  }

  function CanonMembers(members: seq<Member>): seq<Member> {
    seq(|members|, i requires 0 <= i < |members| => CanonMember(members[i]))
  }

  lemma FirstToken(v: Value)
    ensures TokensOf(v) != [] && Head(TokensOf(v)) !in {RBracket, RBrace, Comment}
  {
  }

  // ----- one step of the reader

  lemma ReadsBracket(ts: seq<Token>)
    requires Head(ts) == LBracket
    ensures ReadValue(ts) ==
            if Head(Rest(ts)) == RBracket then Done(Array([]), Rest(Rest(ts))) else ReadElements(Rest(ts), [])
  {
    hide ReadElements;
  }

  lemma ReadsBrace(ts: seq<Token>)
    requires Head(ts) == LBrace
    ensures ReadValue(ts) == ReadMembers(Rest(ts), true, [])
  {
    hide ReadMembers;
  }

  lemma ReadsElement(ts: seq<Token>, elems: seq<Value>, value: Value, after: seq<Token>)
    requires ReadValue(ts) == Done(value, after) && Head(after) != Comment
    ensures ReadElements(ts, elems) ==
            if Head(after) == RBracket then Done(Array(elems + [value]), Rest(after))
            else ReadElements(Rest(after), elems + [value])
  {
    hide ReadValue;
  }

  lemma ReadsMember(ts: seq<Token>, unnamed: bool, members: seq<Member>, name: string, value: Value, after: seq<Token>)
    requires Head(ts).Quoted? && DecodeString(Head(ts).body) == Some(name) && Head(Rest(ts)) == Colon
    requires ReadValue(Rest(Rest(ts))) == Done(value, after) && Head(after) in {Comma, RBrace}
    ensures ReadMembers(ts, unnamed, members) ==
            if Head(after) == RBrace then Done(Object(Put(members, CString(name), value)), Rest(after))
            else ReadMembers(Rest(after), name == "", Put(members, CString(name), value))
  {
    hide ReadValue, Put, CString, DecodeString;
  }

  lemma EmptyListReads(rest: seq<Token>)
    ensures ReadValue([LBracket] + [RBracket] + rest) == Done(Array([]), rest)
  {
    var ts := [LBracket] + [RBracket] + rest;
    hide ReadValue, ReadElements;
    ReadsBracket(ts);
    assert Rest(ts) == [RBracket] + rest && Rest(Rest(ts)) == rest;
  }

  lemma ListOpens(a: seq<Token>, b: seq<Token>, rest: seq<Token>)
    requires a != [] && Head(a) != RBracket
    ensures ReadValue([LBracket] + (a + b) + rest) == ReadElements(a + (b + rest), [])
  {
    var ts := [LBracket] + (a + b) + rest;
    hide ReadValue, ReadElements;
    ReadsBracket(ts);
    assert Rest(ts) == a + (b + rest);
  }

  lemma NoMembers(rest: seq<Token>)
    ensures ReadMembers([RBrace] + rest, true, []) == Done(Object([]), rest)
  {
    assert Rest([RBrace] + rest) == rest;
  }

  lemma EmptyRecordReads(rest: seq<Token>)
    ensures ReadValue([LBrace] + [RBrace] + rest) == Done(Object([]), rest)
  {
    var ts := [LBrace] + [RBrace] + rest;
    hide ReadValue, ReadMembers;
    ReadsBrace(ts);
    assert Rest(ts) == [RBrace] + rest;
    NoMembers(rest);
  }

  lemma RecordOpens(a: seq<Token>, b: seq<Token>, rest: seq<Token>)
    ensures ReadValue([LBrace] + (a + b) + rest) == ReadMembers(a + (b + rest), true, [])
  {
    var ts := [LBrace] + (a + b) + rest;
    hide ReadValue, ReadMembers;
    ReadsBrace(ts);
    assert Rest(ts) == a + (b + rest);
  }

  // ----- the reader undoes TokensOf

  /** Whatever tokens follow. */
  lemma {:induction false} ReadsBack(v: Value, rest: seq<Token>)
    requires WellFormed(v)
    ensures ReadValue(TokensOf(v) + rest) == Done(Canon(v), rest)
    decreases v, 1
  {
    hide ReadValue, TokensOf;
    match v {
      case Array(elems) => ArrayReadsBack(elems, rest);
      case Object(members) => ObjectReadsBack(members, rest);
      case _ => ScalarReadsBack(v, rest);
    }
  }

  lemma ScalarReadsBack(v: Value, rest: seq<Token>)
    requires WellFormed(v) && !v.Array? && !v.Object?
    ensures ReadValue(TokensOf(v) + rest) == Done(Canon(v), rest)
  {
    hide DecodeNumber, DecodeString, Escape, IntText, CString, CanonInt, IsNumberText;
    assert Rest(TokensOf(v) + rest) == rest;
    match v {
      case Int(i) => IntReadsBack(i); IntIsText(i);
      case UInt(u) => IntReadsBack(u); IntIsText(u);
      case Real(text) => NumberIsText(text);
      case Str(s) => EscapeReadsBack(s); CStringWhole(s);
      case _ =>
    }
  }

  lemma IntIsText(i: int)
    ensures IntText(i) != ""
  {
    IntTextIsNumber(i);
  }

  lemma NumberIsText(text: string)
    requires IsNumberText(text)
    ensures text != ""
  {
  }

  lemma {:induction false} ArrayReadsBack(elems: seq<Value>, rest: seq<Token>)
    requires forall e :: e in elems ==> WellFormed(e)
    ensures ReadValue(TokensOf(Array(elems)) + rest) == Done(Array(CanonElems(elems)), rest)
    decreases elems, 2
  {
    hide ReadValue, ReadElements, WellFormed;
    if elems == [] {
      EmptyListReads(rest);
      assert CanonElems(elems) == [];
    } else {
      FirstToken(elems[0]);
      ElementsReadBack(elems, [], rest);
      ListOpens(TokensOf(elems[0]), ElementTokens(elems[1..]), rest);
      assert [] + CanonElems(elems) == CanonElems(elems);
    }
  }

  lemma {:induction false} ElementsReadBack(elems: seq<Value>, before: seq<Value>, rest: seq<Token>)
    requires elems != [] && forall e :: e in elems ==> WellFormed(e)
    ensures ReadElements(TokensOf(elems[0]) + (ElementTokens(elems[1..]) + rest), before) ==
            Done(Array(before + CanonElems(elems)), rest)
    decreases elems, 1
  {
    hide ReadValue, ReadElements, WellFormed, TokensOf, Canon;
    var more := elems[1..];
    var after := ElementTokens(more) + rest;
    ReadsBack(elems[0], after);
    assert CanonElems(elems) == [Canon(elems[0])] + CanonElems(more);
    ReadsElement(TokensOf(elems[0]) + after, before, Canon(elems[0]), after);
    if more == [] {
      assert Rest(after) == rest;
      assert before + CanonElems(elems) == before + [Canon(elems[0])];
    } else {
      assert Rest(after) == TokensOf(more[0]) + (ElementTokens(more[1..]) + rest);
      ElementsReadBack(more, before + [Canon(elems[0])], rest);
      assert before + [Canon(elems[0])] + CanonElems(more) == before + CanonElems(elems);
    }
  }

  lemma {:induction false} ObjectReadsBack(members: seq<Member>, rest: seq<Token>)
    requires WellFormed(Object(members))
    ensures ReadValue(TokensOf(Object(members)) + rest) == Done(Object(CanonMembers(members)), rest)
    decreases members, 2
  {
    hide ReadValue, ReadMembers, WellFormed, PairTokens;
    var ts := TokensOf(Object(members)) + rest;
    ReadsBrace(ts);
    if members == [] {
      assert Rest(ts) == [RBrace] + rest;
      NoMembers(rest);
      assert CanonMembers(members) == [];
    } else {
      assert Rest(ts) == PairTokens(members[0]) + (MemberTokens(members[1..]) + rest);
      MembersReadBack(members, true, [], rest);
      assert [] + CanonMembers(members) == CanonMembers(members);
    }
  }

  lemma WellFormedRest(members: seq<Member>)
    requires members != [] && WellFormed(Object(members))
    ensures NUL !in members[0].name && WellFormed(members[0].value) && WellFormed(Object(members[1..]))
    ensures forall n :: n in members[1..] ==> Less(members[0].name, n.name)
  {
    assert members[0] in members;
    forall n | n in members[1..] ensures n in members && Less(members[0].name, n.name) {
      var j :| 0 <= j < |members| - 1 && members[j + 1] == n;
    }
  }

  lemma OneMember(m: Member, unnamed: bool, before: seq<Member>, after: seq<Token>)
    requires NUL !in m.name && ReadValue(TokensOf(m.value) + after) == Done(Canon(m.value), after)
    requires Head(after) in {Comma, RBrace} && forall a :: a in before ==> Less(a.name, m.name)
    ensures ReadMembers(PairTokens(m) + after, unnamed, before) ==
            if Head(after) == RBrace then Done(Object(before + [CanonMember(m)]), Rest(after))
            else ReadMembers(Rest(after), m.name == "", before + [CanonMember(m)])
  {
    hide ReadValue, ReadMembers, TokensOf, Canon, Put, DecodeString, Escape, CString, Less;
    var ts := PairTokens(m) + after;
    assert Rest(ts) == [Colon] + (TokensOf(m.value) + after) && Rest(Rest(ts)) == TokensOf(m.value) + after;
    EscapeReadsBack(m.name);
    CStringWhole(m.name);
    PutLast(before, m.name, Canon(m.value));
    ReadsMember(ts, unnamed, before, m.name, Canon(m.value), after);
  }

  lemma {:induction false} MembersReadBack(members: seq<Member>, unnamed: bool, before: seq<Member>, rest: seq<Token>)
    requires members != [] && WellFormed(Object(members))
    requires forall m, n :: m in before && n in members ==> Less(m.name, n.name)
    ensures ReadMembers(PairTokens(members[0]) + (MemberTokens(members[1..]) + rest), unnamed, before) ==
            Done(Object(before + CanonMembers(members)), rest)
    decreases members, 1
  {
    hide ReadValue, ReadMembers, PairTokens, TokensOf, Canon, Less, WellFormed;
    WellFormedRest(members);
    var m, more := members[0], members[1..];
    var after := MemberTokens(more) + rest;
    ReadsBack(m.value, after);
    OneMember(m, unnamed, before, after);
    var before' := before + [CanonMember(m)];
    assert CanonMembers(members) == [CanonMember(m)] + CanonMembers(more);
    if more == [] {
      assert Rest(after) == rest;
      assert before + CanonMembers(members) == before';
    } else {
      assert Rest(after) == PairTokens(more[0]) + (MemberTokens(more[1..]) + rest);
      MembersReadBack(more, m.name == "", before', rest);
      assert before' + CanonMembers(more) == before + CanonMembers(members);
    }
  }

  /** The values that are read back unchanged. */
  ghost predicate Exact(v: Value) {
    match v
    case Int(i) => i >= -2147483639
    case UInt(u) => MAX_INT < u <= 4294967289
    case Array(elems) => forall e :: e in elems ==> Exact(e)
    case Object(members) => forall m :: m in members ==> Exact(m.value)
    case _ => true
  }

  lemma {:induction false} CanonIsIdentityOnExact(v: Value)
    requires WellFormed(v)
    ensures Canon(v) == v <==> Exact(v)
  {
    match v {
      case Array(elems) =>
        forall i | 0 <= i < |elems| ensures Canon(elems[i]) == elems[i] <==> Exact(elems[i]) {
          CanonIsIdentityOnExact(elems[i]);
        }
        assert Canon(v).elems == elems <==> forall i :: 0 <= i < |elems| ==> Canon(elems[i]) == elems[i];
      case Object(members) =>
        forall i | 0 <= i < |members| ensures CanonMember(members[i]) == members[i] <==> Exact(members[i].value) {
          CanonIsIdentityOnExact(members[i].value);
        }
        assert Canon(v).members == members
          <==> forall i :: 0 <= i < |members| ==> CanonMember(members[i]) == members[i];
      case _ =>
    }
  }
}

/** The two writers: the text each one produces, the classes that produce it, and why either text is read
    back as the value it was written from. */
module JsonWriter {
  import opened Bytes
  import opened JsonValue
  import opened JsonLexer
  import opened JsonReader
  import opened JsonText
  import opened JsonTokens
  import opened Wrappers

  /** The integers that valueToString can print. */
  ghost predicate Printable(v: Value) {
    match v
    case Int(i) => -MAX_INT <= i <= MAX_INT
    case UInt(u) => u <= MAX_UINT
    case Array(elems) => forall e :: e in elems ==> Printable(e)
    case Object(members) => forall m :: m in members ==> Printable(m.value)
    case _ => true
  }

  lemma {:induction false} WellFormedPrints(v: Value)
    requires WellFormed(v)
    ensures Printable(v)
  {
    match v {
      case Array(elems) => forall e | e in elems ensures Printable(e) { WellFormedPrints(e); }
      case Object(members) => forall m | m in members ensures Printable(m.value) { WellFormedPrints(m.value); }
      case _ =>
    }
  }

  /** What is printed without looking further into the value. */
  predicate Leaf(v: Value) {
    !(v.Array? && v.elems != []) && !(v.Object? && v.members != [])
  }

  function LeafText(v: Value): string
    requires Leaf(v)
  {
    match v
    case Null => "null"
    case Int(i) => IntText(i)
    case UInt(u) => Decimal(u)
    case Real(text) => text
    case Str(s) => Quote(CString(s))
    case Bool(b) => if b then "true" else "false"
    case Array(_) => "[]"
    case Object(_) => "{}"
  }

  /** A text that ends in something other than a blank or a line break. */
  predicate Closed(s: string) {
    s != "" && s[|s| - 1] != ' ' && s[|s| - 1] != '\n'
  }

  lemma LeafEmits(v: Value)
    requires Leaf(v) && WellFormed(v)
    ensures Emits(LeafText(v), TokensOf(v)) && Closed(LeafText(v))
  {
    hide Firm, Emits;
    match v {
      case Null => WordEmits('n', "ull", NullWord);
      case Int(i) => IntTextIsNumber(i); NumberEmits(IntText(i));
      case UInt(u) => IntTextIsNumber(u); NumberEmits(IntText(u));
      case Real(text) => NumberEmits(text);
      case Str(s) => CStringWhole(s); FirmQuote(s); FirmEmits(LeafText(v), TokensOf(v));
      case Bool(b) =>
        if b { WordEmits('t', "rue", True); } else { WordEmits('f', "alse", False); }
      case Array(_) =>
        PairEmits(LBracket, RBracket);
        assert TokensOf(v) == [LBracket, RBracket] && "[]" == [Mark(LBracket)] + [Mark(RBracket)];
      case Object(_) =>
        PairEmits(LBrace, RBrace);
        assert TokensOf(v) == [LBrace, RBrace] && "{}" == [Mark(LBrace)] + [Mark(RBrace)];
    }
  }

  lemma WordEmits(first: char, tail: string, token: Token)
    requires (first, tail, token) in {('t', "rue", True), ('f', "alse", False), ('n', "ull", NullWord)}
    ensures Emits([first] + tail, [token]) && Closed([first] + tail)
    ensures ['n'] + "ull" == "null" && ['t'] + "rue" == "true" && ['f'] + "alse" == "false"
  {
    hide Lex;
    FirmWord(first, tail, token);
  }

  lemma FirmEmits(s: string, tokens: seq<Token>)
    requires Firm(s, tokens)
    ensures Emits(s, tokens)
  {
    hide Lex;
  }

  lemma NumberEmits(text: string)
    requires IsNumberText(text)
    ensures Emits(text, [Number(text)]) && Closed(text)
  {
    hide Lex;
    EmitsNumber(text);
  }

  lemma PairEmits(open: Token, shut: Token)
    requires (open, shut) in {(LBracket, RBracket), (LBrace, RBrace)}
    ensures Emits([Mark(open)] + [Mark(shut)], [open, shut])
  {
    hide Emits, Firm;
    FirmMark(open);
    FirmMark(shut);
    FirmThenFirm([Mark(open)], [open], [Mark(shut)], [shut]);
    assert [open] + [shut] == [open, shut];
    FirmEmits([Mark(open)] + [Mark(shut)], [open, shut]);
  }

  // ----- the compact text

  function FastText(v: Value, yaml: bool): string
    decreases v
  {
    if Leaf(v) then LeafText(v)
    else match v
      case Array(elems) => "[" + FastText(elems[0], yaml) + FastElements(elems[1..], yaml)
      case Object(members) => "{" + FastPair(members[0], yaml) + FastMembers(members[1..], yaml)
  }

  function FastElements(elems: seq<Value>, yaml: bool): string
    decreases elems
  {
    if elems == [] then "]" else "," + FastText(elems[0], yaml) + FastElements(elems[1..], yaml)
  }

  function Separator(yaml: bool): string {
    if yaml then ": " else ":"
  }

  function FastPair(m: Member, yaml: bool): string
    decreases m
  {
    Quote(CString(m.name)) + Separator(yaml) + FastText(m.value, yaml)
  }

  function FastMembers(members: seq<Member>, yaml: bool): string
    decreases members
  {
    if members == [] then "}" else "," + FastPair(members[0], yaml) + FastMembers(members[1..], yaml)
  }

  /** What is still to be printed of an array when `index` elements are. */
  function FastRemaining(elems: seq<Value>, index: nat, yaml: bool): string
    requires index <= |elems|
  {
    if index == 0 && elems != [] then FastText(elems[0], yaml) + FastElements(elems[1..], yaml)
    else FastElements(elems[index..], yaml)
  }

  function FastRemainingMembers(members: seq<Member>, index: nat, yaml: bool): string
    requires index <= |members|
  {
    if index == 0 && members != [] then FastPair(members[0], yaml) + FastMembers(members[1..], yaml)
    else FastMembers(members[index..], yaml)
  }

  /** valueToString and valueToQuotedString for a value that is not an array or object. */
  method ScalarToString(v: Value) returns (r: string)
    requires Printable(v) && !v.Array? && !v.Object?
    ensures r == LeafText(v)
  {
    match v {
      case Null => r := "null";
      case Int(i) => r := ValueToStringInt(i);
      case UInt(u) => r := ValueToStringUInt(u);
      case Real(text) => r := text;
      case Str(s) => r := ValueToQuotedString(s);
      case Bool(b) => r := if b then "true" else "false";
    }
  }

  class FastWriter {
    var document: string
    const yaml: bool

    constructor (yaml: bool)
      ensures this.yaml == yaml
    {
      this.yaml := yaml;
      document := "";
    }

    method Write(root: Value) returns (r: string)
      requires Printable(root)
      modifies this
      ensures r == FastText(root, yaml) + "\n"
    {
      document := "";
      WriteValue(root);
      document := document + "\n";
      r := document;
    }

    method WriteValue(v: Value)
      requires Printable(v)
      modifies this
      ensures document == old(document) + FastText(v, yaml)
      decreases v, 2
    {
      hide FastText, LeafText;
      if v.Array? {
        WriteArray(v);
      } else if v.Object? {
        WriteObject(v);
      } else {
        var text := ScalarToString(v);
        FastLeaf(v, yaml);
        document := document + text;
      }
    }

    method WriteArray(v: Value)
      requires Printable(v) && v.Array?
      modifies this
      ensures document == old(document) + FastText(v, yaml)
      decreases v, 1
    {
      hide FastText, FastRemaining, Printable;
      document := document + "[";
      var index := 0;
      while index < |v.elems|
        invariant index <= |v.elems|
        invariant document + FastRemaining(v.elems, index, yaml) == old(document) + "["
          + FastRemaining(v.elems, 0, yaml)
      {
        WriteElement(v, index);
        index := index + 1;
      }
      document := document + "]";
      FastArray(v, yaml);
      Glue(old(document), "[", FastRemaining(v.elems, 0, yaml), "");
    }

    /** One turn of that loop. */
    method WriteElement(v: Value, index: nat)
      requires Printable(v) && v.Array? && index < |v.elems|
      modifies this
      ensures document + FastRemaining(v.elems, index + 1, yaml)
           == old(document) + FastRemaining(v.elems, index, yaml)
      decreases v, 0
    {
      hide FastText, FastRemaining;
      if index > 0 { document := document + ","; }
      WriteValue(v.elems[index]);
      FastStep(v.elems, index, yaml);
      Glue(old(document), if index > 0 then "," else "", FastText(v.elems[index], yaml),
        FastRemaining(v.elems, index + 1, yaml));
    }

    method WriteObject(v: Value)
      requires Printable(v) && v.Object?
      modifies this
      ensures document == old(document) + FastText(v, yaml)
      decreases v, 1
    {
      hide FastText, FastPair, FastRemainingMembers;
      document := document + "{";
      var index := 0;
      while index < |v.members|
        invariant index <= |v.members|
        invariant document + FastRemainingMembers(v.members, index, yaml)
               == old(document) + "{" + FastRemainingMembers(v.members, 0, yaml)
      {
        ghost var before := document;
        if index > 0 { document := document + ","; }
        WriteMember(v.members[index]);
        FastMemberStep(v.members, index, yaml);
        index := index + 1;
        assert document + FastRemainingMembers(v.members, index, yaml)
            == before + FastRemainingMembers(v.members, index - 1, yaml);
      }
      document := document + "}";
      FastObject(v, yaml);
    }

    method WriteMember(m: Member)
      requires Printable(m.value)
      modifies this
      ensures document == old(document) + FastPair(m, yaml)
      decreases m
    {
      hide Printable, FastText, Quote, CString;
      var name := ValueToQuotedString(m.name);
      document := document + name;
      document := document + Separator(yaml);
      WriteValue(m.value);
    }
  }

  lemma Glue(a: string, b: string, c: string, d: string)
    ensures ((a + b) + c) + d == a + ((b + c) + d)
    ensures b == "" ==> a + b == a
  {
  }

  lemma FastLeaf(v: Value, yaml: bool)
    requires !v.Array? && !v.Object?
    ensures FastText(v, yaml) == LeafText(v)
  {
  }

  lemma FastArray(v: Value, yaml: bool)
    requires v.Array?
    ensures FastText(v, yaml) == "[" + FastRemaining(v.elems, 0, yaml)
    ensures FastRemaining(v.elems, |v.elems|, yaml) == "]"
  {
  }

  lemma FastObject(v: Value, yaml: bool)
    requires v.Object?
    ensures FastText(v, yaml) == "{" + FastRemainingMembers(v.members, 0, yaml)
    ensures FastRemainingMembers(v.members, |v.members|, yaml) == "}"
  {
  }

  lemma FastStep(elems: seq<Value>, index: nat, yaml: bool)
    requires index < |elems|
    ensures FastRemaining(elems, index, yaml) ==
            (if index > 0 then "," else "") + FastText(elems[index], yaml) + FastRemaining(elems, index + 1, yaml)
  {
    hide FastText;
    assert elems[index..][1..] == elems[index + 1..];
  }

  lemma FastMemberStep(members: seq<Member>, index: nat, yaml: bool)
    requires index < |members|
    ensures FastRemainingMembers(members, index, yaml) ==
            (if index > 0 then "," else "") + FastPair(members[index], yaml)
              + FastRemainingMembers(members, index + 1, yaml)
  {
    hide FastPair;
    assert members[index..][1..] == members[index + 1..];
  }

  // ----- the compact text stands for the tokens of the value

  lemma {:induction false} FastEmits(v: Value, yaml: bool)
    requires WellFormed(v)
    ensures Emits(FastText(v, yaml), TokensOf(v))
    decreases v, 1
  {
    hide Emits, Firm, LeafText;
    if Leaf(v) {
      LeafEmits(v);
    } else {
      match v {
        case Array(elems) =>
          hide FastText, TokensOf;
          FastEmits(elems[0], yaml);
          FastElementsFirm(elems[1..], yaml);
          EmitsThenFirm(FastText(elems[0], yaml), TokensOf(elems[0]), FastElements(elems[1..], yaml),
            ElementTokens(elems[1..]));
          FirmMark(LBracket);
          FirmThenFirm("[", [LBracket], FastText(elems[0], yaml) + FastElements(elems[1..], yaml),
                       TokensOf(elems[0]) + ElementTokens(elems[1..]));
          ArrayParts(elems, yaml);
          FirmEmits(FastText(v, yaml), TokensOf(v));
        case Object(members) =>
          hide FastText, TokensOf;
          FastPairEmits(members[0], yaml);
          FastMembersFirm(members[1..], yaml);
          EmitsThenFirm(FastPair(members[0], yaml), PairTokens(members[0]),
            FastMembers(members[1..], yaml), MemberTokens(members[1..]));
          FirmMark(LBrace);
          FirmThenFirm("{", [LBrace], FastPair(members[0], yaml) + FastMembers(members[1..], yaml),
                       PairTokens(members[0]) + MemberTokens(members[1..]));
          ObjectParts(members, yaml);
          FirmEmits(FastText(v, yaml), TokensOf(v));
      }
    }
  }

  lemma ArrayParts(elems: seq<Value>, yaml: bool)
    requires elems != []
    ensures FastText(Array(elems), yaml) == "[" + (FastText(elems[0], yaml) + FastElements(elems[1..], yaml))
    ensures TokensOf(Array(elems)) == [LBracket] + (TokensOf(elems[0]) + ElementTokens(elems[1..]))
  {
  }

  lemma ObjectParts(members: seq<Member>, yaml: bool)
    requires members != []
    ensures FastText(Object(members), yaml) == "{" + (FastPair(members[0], yaml) + FastMembers(members[1..], yaml))
    ensures TokensOf(Object(members)) == [LBrace] + (PairTokens(members[0]) + MemberTokens(members[1..]))
  {
  }

  lemma {:induction false} FastElementsFirm(elems: seq<Value>, yaml: bool)
    requires forall e :: e in elems ==> WellFormed(e)
    ensures Firm(FastElements(elems, yaml), ElementTokens(elems))
    ensures FastElements(elems, yaml) != "" && Safe(FastElements(elems, yaml))
    decreases elems, 0
  {
    hide Emits, Firm, WellFormed, FastText, TokensOf;
    if elems == [] {
      FirmMark(RBracket);
    } else {
      FastEmits(elems[0], yaml);
      FastElementsFirm(elems[1..], yaml);
      EmitsThenFirm(FastText(elems[0], yaml), TokensOf(elems[0]), FastElements(elems[1..], yaml),
        ElementTokens(elems[1..]));
      FirmMark(Comma);
      FirmThenFirm(",", [Comma], FastText(elems[0], yaml) + FastElements(elems[1..], yaml),
                   TokensOf(elems[0]) + ElementTokens(elems[1..]));
      assert FastElements(elems, yaml) == "," + (FastText(elems[0], yaml) + FastElements(elems[1..], yaml));
      assert ElementTokens(elems) == [Comma] + (TokensOf(elems[0]) + ElementTokens(elems[1..]));
    }
  }

  lemma FirmSeparator(yaml: bool)
    ensures Firm(Separator(yaml), [Colon])
  {
    hide Emits, Firm;
    FirmMark(Colon);
    if yaml {
      FirmSpaces(" ");
      FirmThenFirm(":", [Colon], " ", []);
      assert ":" + " " == ": " && [Colon] + [] == [Colon];
    }
  }

  lemma {:induction false} FastPairEmits(m: Member, yaml: bool)
    requires NUL !in m.name && WellFormed(m.value)
    ensures Emits(FastPair(m, yaml), PairTokens(m))
    decreases m, 0
  {
    hide Emits, Firm, WellFormed, FastText, TokensOf, Quote, Escape, Safe;
    CStringWhole(m.name);
    FirmQuote(m.name);
    FirmSeparator(yaml);
    FirmThenFirm(Quote(m.name), [Quoted(Escape(m.name))], Separator(yaml), [Colon]);
    FastEmits(m.value, yaml);
    FirmThenEmits(Quote(m.name) + Separator(yaml), [Quoted(Escape(m.name))] + [Colon],
      FastText(m.value, yaml), TokensOf(m.value));
    assert [Quoted(Escape(m.name))] + [Colon] == [Quoted(Escape(m.name)), Colon];
  }

  lemma {:induction false} FastMembersFirm(members: seq<Member>, yaml: bool)
    requires forall m :: m in members ==> NUL !in m.name && WellFormed(m.value)
    ensures Firm(FastMembers(members, yaml), MemberTokens(members))
    ensures FastMembers(members, yaml) != "" && Safe(FastMembers(members, yaml))
    decreases members, 0
  {
    hide Emits, Firm, WellFormed, FastPair, PairTokens;
    if members == [] {
      FirmMark(RBrace);
    } else {
      var m, more := members[0], members[1..];
      FastPairEmits(m, yaml);
      FastMembersFirm(more, yaml);
      EmitsThenFirm(FastPair(m, yaml), PairTokens(m), FastMembers(more, yaml), MemberTokens(more));
      FirmMark(Comma);
      FirmThenFirm(",", [Comma], FastPair(m, yaml) + FastMembers(more, yaml), PairTokens(m) + MemberTokens(more));
      assert FastMembers(members, yaml) == "," + (FastPair(m, yaml) + FastMembers(more, yaml));
      assert MemberTokens(members) == [Comma] + (PairTokens(m) + MemberTokens(more));
    }
  }

  /** A text that stands for the tokens of v is read as v, also with a final line break. */
  lemma EmittedReads(text: string, v: Value)
    requires WellFormed(v) && Emits(text, TokensOf(v))
    ensures Parse(text + "\n") == Some(Canon(v))
  {
    hide Emits, Firm, WellFormed, TokensOf, ReadValue, Canon;
    FirmSpaces("\n");
    EmitsThenFirm(text, TokensOf(v), "\n", []);
    FirmEmits(text + "\n", TokensOf(v) + []);
    EmitsWhole(text + "\n", TokensOf(v) + []);
    ReadsBack(v, []);
  }

  /** The reader undoes the compact writer. */
  lemma FastRoundTrip(v: Value, yaml: bool)
    requires WellFormed(v)
    ensures Parse(FastText(v, yaml) + "\n") == Some(Canon(v))
  {
    FastEmits(v, yaml);
    EmittedReads(FastText(v, yaml), v);
  }

  /** The values that survive unchanged are exactly those whose integers are in range. */
  lemma FastRoundTripExact(v: Value, yaml: bool)
    requires WellFormed(v)
    ensures Parse(FastText(v, yaml) + "\n") == Some(v) <==> Exact(v)
  {
    FastRoundTrip(v, yaml);
    CanonIsIdentityOnExact(v);
  }
}

/** What the writers print is a text of RFC 8259, and means the value that was printed. */
module JsonConforms {
  import opened Bytes
  import opened JsonValue
  import opened JsonLexer
  import opened JsonReader
  import opened JsonText
  import opened JsonTokens
  import opened JsonTheorems
  import opened JsonGrammar
  import opened JsonWriter

  /** Section 7 allows no control character in a string but as an escape. */
  predicate Strict(p: Piece) {
    p.Raw? ==> p.c as int >= 0x20
  }

  // ----- strings

  /** How a char is printed: by name, in four hexadecimal digits, or as itself. */
  function AsPiece(c: char): Piece {
    if c == '"' then Short(0) else if c == '\\' then Short(1) else if c as int == 8 then Short(3)
    else if c as int == 12 then Short(4) else if c as int == 10 then Short(5) else if c as int == 13 then Short(6)
    else if c as int == 9 then Short(7)
    else if c as int < 0x20 then Unicode(c as int, ['0', '0', UPPER[c as int / 16], UPPER[c as int % 16]], "")
    else Raw(c)
  }

  function AsPieces(s: string): seq<Piece> {
    seq(|s|, i requires 0 <= i < |s| => AsPiece(s[i]))
  }

  lemma CharPrinted(c: char)
    requires c != NUL
    ensures LegalPiece(AsPiece(c)) && Strict(AsPiece(c))
    ensures EscapeChar(c) == PieceText(AsPiece(c)) && PieceMeaning(AsPiece(c)) == [c]
  {
    hide FourDigits, UpperHex, Utf8;
    if AsPiece(c).Unicode? { ControlPrinted(c); }
  }

  lemma ControlPrinted(c: char)
    requires 0 < c as int < 0x20
    ensures var n := c as int;
      && FourDigits(['0', '0', UPPER[n / 16], UPPER[n % 16]], n) && Utf8(n) == [c]
      && "\\u00" + [UpperHex(n / 16), UpperHex(n % 16)] == "\\u" + ['0', '0', UPPER[n / 16], UPPER[n % 16]]
  {
    ControlDigits(c as int);
    UpperDigit(c as int / 16);
    UpperDigit(c as int % 16);
  }

  lemma UpperDigit(d: nat)
    requires d < 16
    ensures UpperHex(d) == UPPER[d]
  {
  }

  lemma ControlDigits(n: nat)
    requires n < 0x20
    ensures FourDigits(['0', '0', UPPER[n / 16], UPPER[n % 16]], n)
  {
    assert n / 0x1000 == 0 && n / 0x100 % 16 == 0 && n / 16 % 16 == n / 16;
  }

  /** Exactly the chars that are escaped by name make the writer look at the string char by char, and those that are
      not printed as themselves. */
  lemma EscapedByName(c: char)
    ensures IsSpecial(c) <==> AsPiece(c).Short?
    ensures IsControl(c) <==> 0 < c as int < 0x20
  {
  }

  lemma {:induction false} StringPrinted(s: string)
    requires NUL !in s
    ensures Legal(AsPieces(s)) && forall p :: p in AsPieces(s) ==> Strict(p)
    ensures StringText(AsPieces(s)) == Escape(s) && StringMeaning(AsPieces(s)) == s
  {
    hide EscapeChar, AsPiece, LegalPiece, PieceText, PieceMeaning, Strict;
    if s != "" {
      CharPrinted(s[0]);
      StringPrinted(s[1..]);
      assert AsPieces(s) == [AsPiece(s[0])] + AsPieces(s[1..]);
      assert AsPieces(s)[1..] == AsPieces(s[1..]);
    }
  }

  // ----- integers

  function DigitsOf(n: nat): (ds: seq<Figure>)
    ensures ds != [] && (|ds| > 1 ==> ds[0] != 0)
  {
    if n < 10 then [n] else DigitsOf(n / 10) + [n % 10]
  }

  lemma {:induction false} DigitsOfNumber(n: nat)
    ensures FromDigits(DigitsOf(n), 10) == n && DigitsText(DigitsOf(n)) == Decimal(n)
  {
    var ds := DigitsOf(n);
    if n < 10 {
      assert ds[..0] == [] && FromDigits([], 10) == 0;
    } else {
      DigitsOfNumber(n / 10);
      assert ds[..|ds| - 1] == DigitsOf(n / 10);
    }
    WholeIsDecimal(ds);
  }

  function AsNumber(i: int): Num {
    Num(i < 0, DigitsOf(if i < 0 then -i else i), [], "", [])
  }

  lemma IntegerPrinted(i: int)
    ensures LegalNumber(AsNumber(i)) && NumberText(AsNumber(i)) == IntText(i)
    ensures NumberMeaning(AsNumber(i)) == CanonInt(i)
  {
    DigitsOfNumber(if i < 0 then -i else i);
    DigitsTextDigits([]);
  }

  // ----- values

  ghost predicate IsReal(text: string) {
    exists n :: LegalNumber(n) && NumberText(n) == text && NumberMeaning(n) == Real(text)
  }

  /** All real numbers in v are numbers of RFC 8259. */
  ghost predicate Conforming(v: Value) {
    match v
    case Real(text) => IsReal(text)
    case Array(elems) => forall e :: e in elems ==> Conforming(e)
    case Object(members) => forall m :: m in members ==> Conforming(m.value)
    case _ => true
  }

  predicate StrictJson(j: Json) {
    match j
    case Text(ps) => forall p :: p in ps ==> Strict(p)
    case List(elems) => forall e :: e in elems ==> StrictJson(e)
    case Record(fields) => forall f :: f in fields ==> (forall p :: p in f.name ==> Strict(p)) && StrictJson(f.value)
    case _ => true
  }

  /** The tokens that are printed for a value are those of a text of RFC 8259. */
  lemma {:induction false} Conforms(v: Value) returns (j: Json)
    requires WellFormed(v) && Conforming(v)
    ensures LegalJson(j) && StrictJson(j) && Tokens(j) == TokensOf(v)
    decreases v, 1
  {
    hide NumberText, StringText, LegalNumber, Escape, IntText, Strict, Legal, NumberMeaning, IsNumberText, DecodeNumber;
    match v {
      case Null => j := Word(NullWord);
      case Bool(b) => j := Word(if b then True else False);
      case Int(i) => IntegerPrinted(i); j := Numeral(AsNumber(i));
      case UInt(u) => IntegerPrinted(u); j := Numeral(AsNumber(u));
      case Real(text) =>
        var n :| LegalNumber(n) && NumberText(n) == text && NumberMeaning(n) == Real(text);
        j := Numeral(n);
      case Str(s) => StringPrinted(s); j := Text(AsPieces(s));
      case Array(elems) =>
        var js := ElementsConform(elems);
        j := List(js);
      case Object(members) =>
        var fs := MembersConform(members);
        j := Record(fs);
    }
  }

  lemma {:induction false} ElementsConform(elems: seq<Value>) returns (js: seq<Json>)
    requires forall e :: e in elems ==> WellFormed(e) && Conforming(e)
    ensures |js| == |elems| && forall j :: j in js ==> LegalJson(j) && StrictJson(j)
    ensures MoreTokens(js) == ElementTokens(elems)
    ensures elems != [] ==> Tokens(js[0]) == TokensOf(elems[0]) && MoreTokens(js[1..]) == ElementTokens(elems[1..])
    decreases elems, 2
  {
    hide WellFormed, Conforming, LegalJson, StrictJson, Tokens, TokensOf;
    if elems == [] {
      js := [];
    } else {
      var j := Conforms(elems[0]);
      var more := ElementsConform(elems[1..]);
      js := [j] + more;
      assert js[1..] == more;
    }
  }

  lemma {:induction false} MembersConform(members: seq<Member>) returns (fs: seq<Field>)
    requires forall m :: m in members ==> NUL !in m.name && WellFormed(m.value) && Conforming(m.value)
    ensures |fs| == |members|
    ensures forall f :: f in fs ==>
      Legal(f.name) && LegalJson(f.value) && (forall p :: p in f.name ==> Strict(p)) && StrictJson(f.value)
    ensures MoreFields(fs) == MemberTokens(members)
    ensures members != [] ==>
      FieldTokens(fs[0]) == PairTokens(members[0]) && MoreFields(fs[1..]) == MemberTokens(members[1..])
    decreases members, 2
  {
    hide WellFormed, Conforming, LegalJson, StrictJson, Tokens, TokensOf, Legal, Strict, StringText, Escape;
    if members == [] {
      fs := [];
    } else {
      var j := Conforms(members[0].value);
      StringPrinted(members[0].name);
      var f := Field(AsPieces(members[0].name), j);
      var more := MembersConform(members[1..]);
      fs := [f] + more;
      assert fs[1..] == more;
      assert FieldTokens(f) == PairTokens(members[0]);
    }
  }

  // ----- the compact text is its tokens

  /** The texts of the tokens, one straight after the other. */
  function Joined(ts: seq<Token>): string {
    if ts == [] then "" else TextOf(ts[0]) + Joined(ts[1..])
  }

  lemma {:induction false} JoinedBoth(a: seq<Token>, b: seq<Token>)
    ensures Joined(a + b) == Joined(a) + Joined(b)
    decreases |a|
  {
    hide TextOf;
    if a == [] {
      assert a + b == b;
    } else {
      assert (a + b)[1..] == a[1..] + b;
      JoinedBoth(a[1..], b);
    }
  }

  lemma JoinedOne(t: Token)
    ensures Joined([t]) == TextOf(t)
  {
    assert [t][1..] == [];
  }

  /** The compact writer prints nothing between the tokens. */
  lemma {:induction false} CompactIsTokens(v: Value)
    requires WellFormed(v)
    ensures FastText(v, false) == Joined(TokensOf(v))
    decreases v, 1
  {
    hide Joined, Escape, IntText;
    if Leaf(v) {
      CompactLeaf(v);
    } else if v.Array? {
      hide WellFormed;
      CompactIsTokens(v.elems[0]);
      CompactElements(v.elems[1..]);
      JoinedOne(LBracket);
      JoinedBoth(TokensOf(v.elems[0]), ElementTokens(v.elems[1..]));
      JoinedBoth([LBracket], TokensOf(v.elems[0]) + ElementTokens(v.elems[1..]));
    } else {
      CompactPair(v.members[0]);
      CompactMembers(v.members[1..]);
      JoinedOne(LBrace);
      JoinedBoth(PairTokens(v.members[0]), MemberTokens(v.members[1..]));
      JoinedBoth([LBrace], PairTokens(v.members[0]) + MemberTokens(v.members[1..]));
    }
  }

  lemma CompactLeaf(v: Value)
    requires WellFormed(v) && Leaf(v)
    ensures LeafText(v) == Joined(TokensOf(v))
  {
    hide Joined, Escape, IntText, Decimal;
    if TokensOf(v) != [] { JoinedOne(TokensOf(v)[0]); }
    match v {
      case Str(s) => CStringWhole(s);
      case UInt(u) => IntTextOf(u);
      case Array(_) => JoinedOne(LBracket); JoinedOne(RBracket); JoinedBoth([LBracket], [RBracket]);
      case Object(_) => JoinedOne(LBrace); JoinedOne(RBrace); JoinedBoth([LBrace], [RBrace]);
      case _ =>
    }
  }

  lemma IntTextOf(u: nat)
    ensures IntText(u) == Decimal(u)
  {
  }

  lemma {:induction false} CompactElements(elems: seq<Value>)
    requires forall e :: e in elems ==> WellFormed(e)
    ensures FastElements(elems, false) == Joined(ElementTokens(elems))
    decreases elems, 2
  {
    hide Joined, WellFormed, FastText, TokensOf;
    JoinedOne(RBracket);
    JoinedOne(Comma);
    if elems != [] {
      CompactIsTokens(elems[0]);
      CompactElements(elems[1..]);
      JoinedBoth([Comma], TokensOf(elems[0]));
      JoinedBoth([Comma] + TokensOf(elems[0]), ElementTokens(elems[1..]));
    }
  }

  lemma {:induction false} CompactPair(m: Member)
    requires NUL !in m.name && WellFormed(m.value)
    ensures FastPair(m, false) == Joined(PairTokens(m))
    decreases m, 2
  {
    hide Joined, WellFormed, FastText, TokensOf, Escape;
    CStringWhole(m.name);
    CompactIsTokens(m.value);
    JoinedOne(Quoted(Escape(m.name)));
    JoinedOne(Colon);
    assert [Quoted(Escape(m.name)), Colon] == [Quoted(Escape(m.name))] + [Colon];
    JoinedBoth([Quoted(Escape(m.name))], [Colon]);
    JoinedBoth([Quoted(Escape(m.name)), Colon], TokensOf(m.value));
  }

  lemma {:induction false} CompactMembers(members: seq<Member>)
    requires forall m :: m in members ==> NUL !in m.name && WellFormed(m.value)
    ensures FastMembers(members, false) == Joined(MemberTokens(members))
    decreases members, 3
  {
    hide Joined, WellFormed, FastPair, PairTokens;
    JoinedOne(RBrace);
    JoinedOne(Comma);
    if members != [] {
      CompactPair(members[0]);
      CompactMembers(members[1..]);
      JoinedBoth([Comma], PairTokens(members[0]));
      JoinedBoth([Comma] + PairTokens(members[0]), MemberTokens(members[1..]));
    }
  }

  /** The compact text of a value is a text of RFC 8259, without any white space, and means the value. */
  lemma CompactConforms(v: Value) returns (j: Json)
    requires WellFormed(v) && Conforming(v)
    ensures LegalJson(j) && StrictJson(j) && FastText(v, false) == Joined(Tokens(j)) && Meaning(j) == Canon(v)
  {
    hide ReadValue, Tokens, TokensOf, Meaning, Canon, LegalJson, StrictJson, WellFormed, Conforming, FastText, Joined;
    j := Conforms(v);
    CompactIsTokens(v);
    TokensRead(j, []);
    ReadsBack(v, []);
  }
}

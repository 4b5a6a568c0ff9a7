/** The texts that RFC 8259 calls JSON, and that the reader gives each of them its meaning. */
module JsonGrammar {
  import opened Bytes
  import opened JsonValue
  import opened JsonLexer
  import opened JsonReader
  import opened JsonText
  import opened JsonTokens
  import opened JsonTheorems
  import opened Wrappers

  // ----- strings (section 7)

  /** A char that stands for itself, a short escape, or a code point in one escape or, as a surrogate pair, two. */
  datatype Piece = Raw(c: char) | Short(i: nat) | Unicode(cp: nat, high: string, low: string)

  const SHORT := "\"\\/bfnrt"
  const MEANT := ['"', '\\', '/', 8 as char, 12 as char, 10 as char, 13 as char, 9 as char]

  predicate LegalPiece(p: Piece) {
    match p
    case Raw(c) => c != '"' && c != '\\'
    case Short(i) => i < 8
    case Unicode(cp, high, low) =>
      cp <= 0x10_FFFF &&
      if cp >= 0x1_0000 then
        FourDigits(high, 0xD800 + (cp - 0x1_0000) / 0x400) && FourDigits(low, 0xDC00 + (cp - 0x1_0000) % 0x400)
      else !(0xD800 <= cp < 0xDC00) && FourDigits(high, cp)
  }

  function PieceText(p: Piece): string
    requires LegalPiece(p)
  {
    match p
    case Raw(c) => [c]
    case Short(i) => ['\\', SHORT[i]]
    case Unicode(cp, high, low) => if cp >= 0x1_0000 then "\\u" + high + "\\u" + low else "\\u" + high
  }

  function PieceMeaning(p: Piece): string
    requires LegalPiece(p)
  {
    match p
    case Raw(c) => [c]
    case Short(i) => [MEANT[i]]
    case Unicode(cp, _, _) => Utf8(cp)
  }

  predicate Legal(ps: seq<Piece>) {
    forall p :: p in ps ==> LegalPiece(p)
  }

  /** What stands between the quotes, and what it means. */
  function StringText(ps: seq<Piece>): string
    requires Legal(ps)
  {
    if ps == [] then "" else PieceText(ps[0]) + StringText(ps[1..])
  }

  function StringMeaning(ps: seq<Piece>): string
    requires Legal(ps)
  {
    if ps == [] then "" else PieceMeaning(ps[0]) + StringMeaning(ps[1..])
  }

  /** The eight short escapes, and no others. */
  lemma ShortEscapes(c: char, v: char)
    ensures SimpleEscape(c) == Some(v) <==> exists i :: 0 <= i < 8 && SHORT[i] == c && MEANT[i] == v
  {
    if SimpleEscape(c) == Some(v) {
      var i := EscapeIndex(c, v);
      assert 0 <= i < 8 && SHORT[i] == c && MEANT[i] == v;
    }
    if i :| 0 <= i < 8 && SHORT[i] == c && MEANT[i] == v { EscapeOf(i); }
  }

  lemma EscapeIndex(c: char, v: char) returns (i: nat)
    requires SimpleEscape(c) == Some(v)
    ensures i < 8 && SHORT[i] == c && MEANT[i] == v
  {
    i := if c == '"' then 0 else if c == '\\' then 1 else if c == '/' then 2 else if c == 'b' then 3
      else if c == 'f' then 4 else if c == 'n' then 5 else if c == 'r' then 6 else 7;
  }

  lemma EscapeOf(i: nat)
    requires i < 8
    ensures SimpleEscape(SHORT[i]) == Some(MEANT[i]) && SHORT[i] != 'u'
  {
  }

  lemma PieceReads(p: Piece, rest: string)
    requires LegalPiece(p)
    ensures DecodeString(PieceText(p) + rest) == Prepend(PieceMeaning(p), DecodeString(rest))
  {
    match p {
      case Raw(c) => PlainReads(c, rest);
      case Short(i) =>
        EscapeOf(i);
        ShortReads(SHORT[i], rest);
      case Unicode(cp, high, low) => EscapesInString(cp, high, low, rest);
    }
  }

  lemma PlainReads(c: char, rest: string)
    requires c != '"' && c != '\\'
    ensures DecodeString([c] + rest) == Prepend([c], DecodeString(rest))
  {
    assert ([c] + rest)[1..] == rest;
  }

  lemma ShortReads(c: char, rest: string)
    requires SimpleEscape(c).Some? && c != 'u'
    ensures DecodeString(['\\', c] + rest) == Prepend([SimpleEscape(c).value], DecodeString(rest))
  {
    hide SimpleEscape;
    assert (['\\', c] + rest)[2..] == rest;
  }

  lemma {:induction false} StringReads(ps: seq<Piece>)
    requires Legal(ps)
    ensures DecodeString(StringText(ps)) == Some(StringMeaning(ps))
  {
    hide PieceText, PieceMeaning, LegalPiece;
    if ps != [] {
      StringReads(ps[1..]);
      PieceReads(ps[0], StringText(ps[1..]));
    }
  }

  lemma PieceScans(p: Piece, rest: string)
    requires LegalPiece(p)
    ensures ScanString(PieceText(p) + rest) == Extend(PieceText(p), ScanString(rest))
  {
    hide ScanString, FourDigits, Extend;
    match p {
      case Raw(c) => PlainScans(c, rest);
      case Short(i) => ShortScans(SHORT[i], rest);
      case Unicode(cp, high, low) =>
        if cp >= 0x1_0000 {
          EscapeScans(high, 0xD800 + (cp - 0x1_0000) / 0x400, "\\u" + low + rest);
          EscapeScans(low, 0xDC00 + (cp - 0x1_0000) % 0x400, rest);
          assert PieceText(p) + rest == "\\u" + high + ("\\u" + low + rest);
          ExtendTwice("\\u" + high, "\\u" + low, ScanString(rest));
          assert PieceText(p) == ("\\u" + high) + ("\\u" + low);
        } else {
          EscapeScans(high, cp, rest);
        }
    }
  }

  lemma PlainScans(c: char, rest: string)
    requires c != '"' && c != '\\'
    ensures ScanString([c] + rest) == Extend([c], ScanString(rest))
  {
    assert ([c] + rest)[1..] == rest && ([c] + rest)[..1] == [c];
  }

  lemma ShortScans(c: char, rest: string)
    ensures ScanString(['\\', c] + rest) == Extend(['\\', c], ScanString(rest))
  {
    var s := ['\\', c] + rest;
    assert s[2..] == rest && s[..2] == ['\\', c];
  }

  lemma EscapeScans(h: string, n: nat, rest: string)
    requires FourDigits(h, n)
    ensures ScanString("\\u" + h + rest) == Extend("\\u" + h, ScanString(rest))
  {
    var s := "\\u" + h + rest;
    assert s[2..] == h + rest && s[..2] == "\\u";
    DigitsArePlain(h, n);
    ScanPlain(h, rest);
    ExtendTwice("\\u", h, ScanString(rest));
  }

  lemma DigitsArePlain(h: string, n: nat)
    requires FourDigits(h, n)
    ensures '"' !in h && '\\' !in h
  {
    forall c | c in h ensures c != '"' && c != '\\' {
      var i :| 0 <= i < 4 && h[i] == c;
      var d := if i == 0 then n / 0x1000 else if i == 1 then n / 0x100 % 16 else if i == 2 then n / 16 % 16 else n % 16;
      DigitIsPlain(c, d);
    }
  }

  lemma DigitIsPlain(c: char, d: nat)
    requires Spells(c, d)
    ensures c != '"' && c != '\\'
  {
  }

  lemma ExtendTwice(a: string, b: string, r: Scan)
    ensures Extend(a, Extend(b, r)) == Extend(a + b, r)
  {
    if r.Shut? { assert a + (b + r.body) == a + b + r.body; }
  }

  /** A string token ends where its last quote stands. */
  lemma {:induction false} StringScans(ps: seq<Piece>, b: string)
    requires Legal(ps)
    ensures ScanString(StringText(ps) + "\"" + b) == Shut(StringText(ps), b)
  {
    hide PieceText, LegalPiece;
    if ps == [] {
      assert StringText(ps) + "\"" + b == "\"" + b;
      assert ("\"" + b)[1..] == b;
    } else {
      StringScans(ps[1..], b);
      assert StringText(ps) + "\"" + b == PieceText(ps[0]) + (StringText(ps[1..]) + "\"" + b);
      PieceScans(ps[0], StringText(ps[1..]) + "\"" + b);
    }
  }

  // ----- numbers (section 6)

  type Figure = d: nat | d < 10

  /** An exponent has a mark, with or without a sign, and digits. */
  datatype Num = Num(minus: bool, whole: seq<Figure>, fraction: seq<Figure>, mark: string, exponent: seq<Figure>)

  function DigitsText(ds: seq<Figure>): string {
    seq(|ds|, i requires 0 <= i < |ds| => DECIMAL[ds[i]])
  }

  predicate LegalNumber(n: Num) {
    && n.whole != [] && (|n.whole| > 1 ==> n.whole[0] != 0)
    && n.mark in {"", "e", "E", "e+", "E+", "e-", "E-"} && (n.mark == "" <==> n.exponent == [])
  }

  function WholeText(n: Num): string
    requires LegalNumber(n)
  {
    (if n.minus then "-" else "") + DigitsText(n.whole)
  }

  function NumberText(n: Num): string
    requires LegalNumber(n)
  {
    WholeText(n) + (if n.fraction == [] then "" else "." + DigitsText(n.fraction)) + n.mark + DigitsText(n.exponent)
  }

  function WholeNumber(n: Num): int {
    var i: int := FromDigits(n.whole, 10);
    if n.minus then -i else i
  }

  /** A number with a fraction or an exponent is real. Any other is the integer it denotes, in the range in which the
      reader takes integers, and real outside. */
  function NumberMeaning(n: Num): Value
    requires LegalNumber(n)
  {
    if n.fraction != [] || n.mark != "" then Real(NumberText(n)) else CanonInt(WholeNumber(n))
  }

  lemma DigitsTextDigits(ds: seq<Figure>)
    ensures |DigitsText(ds)| == |ds|
    ensures forall i :: 0 <= i < |ds| ==> IsDigit(DigitsText(ds)[i]) && DigitsText(ds)[i] == DigitOf(ds[i])
  {
    forall i | 0 <= i < |ds| ensures IsDigit(DECIMAL[ds[i]]) && DECIMAL[ds[i]] == DigitOf(ds[i]) { FigureOf(ds[i]); }
  }

  lemma FigureOf(d: Figure)
    ensures IsDigit(DECIMAL[d]) && DECIMAL[d] == DigitOf(d)
  {
  }

  lemma {:induction false} WholeIsDecimal(ds: seq<Figure>)
    requires ds != [] && (|ds| > 1 ==> ds[0] != 0)
    ensures DigitsText(ds) == Decimal(FromDigits(ds, 10)) && (ds != [0] ==> FromDigits(ds, 10) > 0)
    decreases |ds|
  {
    DigitsTextDigits(ds);
    var init, d := ds[..|ds| - 1], ds[|ds| - 1];
    if init == [] {
      assert ds == [d] && FromDigits(init, 10) == 0;
    } else {
      WholeIsDecimal(init);
      assert DigitsText(ds) == DigitsText(init) + [DigitOf(d)];
    }
  }

  lemma IntegerReads(n: Num)
    requires LegalNumber(n) && n.fraction == [] && n.mark == ""
    ensures IsNumberText(NumberText(n)) && DecodeNumber(NumberText(n)) == Some(NumberMeaning(n))
  {
    hide DecodeNumber, IsNumberText, DigitsText;
    var i := FromDigits(n.whole, 10);
    WholeIsDecimal(n.whole);
    DigitsTextDigits(n.exponent);
    assert NumberText(n) == WholeText(n);
    if n.minus && i == 0 {
      assert NumberText(n) == "-" + Decimal(0) == "-0";
      MinusZero();
    } else {
      assert NumberText(n) == IntText(WholeNumber(n));
      IntReadsBack(WholeNumber(n));
      IntTextIsNumber(WholeNumber(n));
    }
  }

  lemma MinusZero()
    ensures IsNumberText("-0") && DecodeNumber("-0") == Some(CanonInt(0))
  {
    assert "-0"[1..] == "0" == Decimal(0);
    hide ReadDigits, Decimal;
    ReadDigitsOfDecimal(0, Threshold(true));
    DecodeDigits("-0");
  }

  predicate NumberChars(s: string) {
    forall i :: 0 <= i < |s| ==> InNumber(s[i])
  }

  lemma NumberCharsOfBoth(a: string, b: string)
    requires NumberChars(a) && NumberChars(b)
    ensures NumberChars(a + b)
  {
    hide InNumber;
  }

  lemma DigitsAreNumberChars(ds: seq<Figure>)
    ensures NumberChars(DigitsText(ds))
  {
    DigitsTextDigits(ds);
  }

  lemma MarksAreNumberChars(n: Num)
    requires LegalNumber(n)
    ensures NumberChars(n.mark) && NumberChars(".") && NumberChars("-") && NumberChars("")
    ensures n.mark != "" ==> n.mark[0] in "eE"
  {
  }

  /** Where the whole part of a real number ends, and what stands at its beginning. */
  lemma RealParts(n: Num)
    requires LegalNumber(n) && (n.fraction != [] || n.mark != "")
    ensures var t, w := NumberText(n), |WholeText(n)|;
      && 0 < w < |t| && t[w] in ".eE" && IsDigit(t[if n.minus then 1 else 0]) && (t[0] == '-' <==> n.minus)
      && NumberChars(t)
  {
    hide DigitsText, InNumber, NumberChars, IsDigit;
    var w := WholeText(n);
    var f := if n.fraction == [] then "" else "." + DigitsText(n.fraction);
    DigitsTextDigits(n.whole);
    FirstDigit(n.whole);
    DigitsAreNumberChars(n.whole);
    DigitsAreNumberChars(n.fraction);
    DigitsAreNumberChars(n.exponent);
    MarksAreNumberChars(n);
    NumberCharsOfBoth(if n.minus then "-" else "", DigitsText(n.whole));
    NumberCharsOfBoth(".", DigitsText(n.fraction));
    NumberCharsOfBoth(w, f);
    NumberCharsOfBoth(w + f, n.mark);
    NumberCharsOfBoth(w + f + n.mark, DigitsText(n.exponent));
    assert NumberText(n) == w + (f + n.mark + DigitsText(n.exponent));
  }

  lemma FirstDigit(ds: seq<Figure>)
    requires ds != []
    ensures |DigitsText(ds)| == |ds| && IsDigit(DigitsText(ds)[0]) && DigitsText(ds)[0] != '-'
  {
    DigitsTextDigits(ds);
  }

  lemma RealReads(n: Num)
    requires LegalNumber(n) && (n.fraction != [] || n.mark != "")
    ensures IsNumberText(NumberText(n)) && DecodeNumber(NumberText(n)) == Some(NumberMeaning(n))
  {
    hide NumberText, WholeText;
    RealParts(n);
    var t := NumberText(n);
    assert t[|WholeText(n)|] in ".eE+";
    assert LooksDouble(t);
  }

  /** Number tokens beyond the grammar: a minus sign alone is taken for zero, one before a fraction for a real number,
      and one before anything else is refused. */
  lemma OtherNumbers(ds: seq<Figure>)
    requires ds != []
    ensures DecodeNumber("-") == Some(Int(0)) && DecodeNumber("-.") == None && DecodeNumber("-e") == None
    ensures DecodeNumber("-." + DigitsText(ds)) == Some(Real("-." + DigitsText(ds)))
  {
    DigitsTextDigits(ds);
    var t := "-." + DigitsText(ds);
    assert t[1] == '.' && t[1..] == "." + DigitsText(ds) && t[1..][1] == DigitsText(ds)[0];
    assert LooksDouble(t);
    assert "-"[1..] == "" && "-."[1..] == "." && "-e"[1..] == "e";
    assert LooksDouble("-.") by { assert "-."[1] == '.'; }
    assert LooksDouble("-e") by { assert "-e"[1] == 'e'; }
  }

  // ----- values (sections 2 to 5)

  datatype Json =
    | Word(word: Token) | Numeral(n: Num) | Text(ps: seq<Piece>) | List(elems: seq<Json>) | Record(fields: seq<Field>)
  datatype Field = Field(name: seq<Piece>, value: Json)

  predicate LegalJson(j: Json) {
    match j
    case Word(t) => t in {NullWord, True, False}
    case Numeral(n) => LegalNumber(n)
    case Text(ps) => Legal(ps)
    case List(elems) => forall e :: e in elems ==> LegalJson(e)
    case Record(fields) => forall f :: f in fields ==> Legal(f.name) && LegalJson(f.value)
  }

  /** Members are assigned one after the other; the last one of a name stays. */
  function Assigned(fields: seq<Field>, before: seq<Member>): seq<Member>
    requires forall f :: f in fields ==> Legal(f.name) && LegalJson(f.value)
  {
    if fields == [] then before
    else
      Assigned(fields[1..], Put(before, CString(StringMeaning(fields[0].name)), Meaning(fields[0].value)))
  }

  function Meaning(j: Json): Value
    requires LegalJson(j)
  {
    match j
    case Word(t) => if t == NullWord then Null else Bool(t == True)
    case Numeral(n) => NumberMeaning(n)
    case Text(ps) => Str(CString(StringMeaning(ps)))
    case List(elems) => Array(seq(|elems|, i requires 0 <= i < |elems| => Meaning(elems[i])))
    case Record(fields) => Object(Assigned(fields, []))
  }

  function Tokens(j: Json): seq<Token>
    requires LegalJson(j)
  {
    match j
    case Word(t) => [t]
    case Numeral(n) => [Number(NumberText(n))]
    case Text(ps) => [Quoted(StringText(ps))]
    case List(elems) => [LBracket] + (if elems == [] then [RBracket] else Tokens(elems[0]) + MoreTokens(elems[1..]))
    case Record(fields) =>
      [LBrace] + (if fields == [] then [RBrace] else FieldTokens(fields[0]) + MoreFields(fields[1..]))
  }

  function MoreTokens(elems: seq<Json>): seq<Token>
    requires forall e :: e in elems ==> LegalJson(e)
  {
    if elems == [] then [RBracket] else [Comma] + Tokens(elems[0]) + MoreTokens(elems[1..])
  }

  function FieldTokens(f: Field): seq<Token>
    requires Legal(f.name) && LegalJson(f.value)
  {
    [Quoted(StringText(f.name)), Colon] + Tokens(f.value)
  }

  function MoreFields(fields: seq<Field>): seq<Token>
    requires forall f :: f in fields ==> Legal(f.name) && LegalJson(f.value)
  {
    if fields == [] then [RBrace] else [Comma] + FieldTokens(fields[0]) + MoreFields(fields[1..])
  }

  // ----- the tokens are read

  lemma {:induction false} TokensRead(j: Json, rest: seq<Token>)
    requires LegalJson(j)
    ensures ReadValue(Tokens(j) + rest) == Done(Meaning(j), rest)
    ensures Tokens(j) != [] && Head(Tokens(j)) !in {RBracket, RBrace, Comment}
    decreases j, 1
  {
    hide ReadValue, Tokens, Meaning;
    match j {
      case List(elems) => ListReads(elems, rest);
      case Record(fields) => RecordReads(fields, rest);
      case _ => LeafReads(j, rest);
    }
  }

  lemma LeafReads(j: Json, rest: seq<Token>)
    requires LegalJson(j) && !j.List? && !j.Record?
    ensures ReadValue(Tokens(j) + rest) == Done(Meaning(j), rest)
    ensures Tokens(j) != [] && Head(Tokens(j)) !in {RBracket, RBrace, Comment}
  {
    hide NumberText, NumberMeaning, LegalNumber, StringText, StringMeaning, DecodeNumber, DecodeString;
    assert Rest(Tokens(j) + rest) == rest;
    match j {
      case Numeral(n) => NumberReads(n);
      case Text(ps) => StringReads(ps);
      case _ =>
    }
  }

  lemma NumberReads(n: Num)
    requires LegalNumber(n)
    ensures IsNumberText(NumberText(n)) && DecodeNumber(NumberText(n)) == Some(NumberMeaning(n))
    ensures NumberText(n) != ""
  {
    hide DecodeNumber, NumberText, NumberMeaning;
    if n.fraction != [] || n.mark != "" { RealReads(n); } else { IntegerReads(n); }
  }

  function Meanings(elems: seq<Json>): seq<Value>
    requires forall e :: e in elems ==> LegalJson(e)
  {
    seq(|elems|, i requires 0 <= i < |elems| => Meaning(elems[i]))
  }

  lemma ListParts(elems: seq<Json>)
    requires forall e :: e in elems ==> LegalJson(e)
    ensures LegalJson(List(elems)) && Meaning(List(elems)) == Array(Meanings(elems))
    ensures Tokens(List(elems)) ==
            [LBracket] + if elems == [] then [RBracket] else Tokens(elems[0]) + MoreTokens(elems[1..])
  {
  }

  lemma RecordParts(fields: seq<Field>)
    requires forall f :: f in fields ==> Legal(f.name) && LegalJson(f.value)
    ensures LegalJson(Record(fields)) && Meaning(Record(fields)) == Object(Assigned(fields, []))
    ensures Tokens(Record(fields)) ==
            [LBrace] + if fields == [] then [RBrace] else FieldTokens(fields[0]) + MoreFields(fields[1..])
  {
  }

  lemma {:induction false} ListReads(elems: seq<Json>, rest: seq<Token>)
    requires forall e :: e in elems ==> LegalJson(e)
    ensures ReadValue(Tokens(List(elems)) + rest) == Done(Meaning(List(elems)), rest)
    ensures Tokens(List(elems)) != [] && Head(Tokens(List(elems))) == LBracket
    decreases elems, 2
  {
    ListParts(elems);
    hide LegalJson, Tokens, Meaning, MoreTokens, ReadValue, ReadElements;
    if elems == [] {
      EmptyListReads(rest);
      assert Meanings(elems) == [];
    } else {
      TokensRead(elems[0], []);
      MoreRead(elems, [], rest);
      ListOpens(Tokens(elems[0]), MoreTokens(elems[1..]), rest);
      assert [] + Meanings(elems) == Meanings(elems);
    }
  }

  lemma {:induction false} MoreRead(elems: seq<Json>, before: seq<Value>, rest: seq<Token>)
    requires elems != [] && forall e :: e in elems ==> LegalJson(e)
    ensures ReadElements(Tokens(elems[0]) + (MoreTokens(elems[1..]) + rest), before) ==
            Done(Array(before + Meanings(elems)), rest)
    decreases elems, 1
  {
    hide ReadValue, ReadElements, LegalJson, Tokens, Meaning;
    var more := elems[1..];
    var after := MoreTokens(more) + rest;
    TokensRead(elems[0], after);
    assert Meanings(elems) == [Meaning(elems[0])] + Meanings(more);
    ReadsElement(Tokens(elems[0]) + after, before, Meaning(elems[0]), after);
    if more == [] {
      assert Rest(after) == rest;
      assert before + Meanings(elems) == before + [Meaning(elems[0])];
    } else {
      assert Rest(after) == Tokens(more[0]) + (MoreTokens(more[1..]) + rest);
      MoreRead(more, before + [Meaning(elems[0])], rest);
      assert before + [Meaning(elems[0])] + Meanings(more) == before + Meanings(elems);
    }
  }

  lemma {:induction false} RecordReads(fields: seq<Field>, rest: seq<Token>)
    requires forall f :: f in fields ==> Legal(f.name) && LegalJson(f.value)
    ensures ReadValue(Tokens(Record(fields)) + rest) == Done(Meaning(Record(fields)), rest)
    ensures Tokens(Record(fields)) != [] && Head(Tokens(Record(fields))) == LBrace
    decreases fields, 2
  {
    RecordParts(fields);
    hide LegalJson, Legal, Tokens, Meaning, FieldTokens, MoreFields, ReadValue, ReadMembers;
    if fields == [] {
      EmptyRecordReads(rest);
    } else {
      FieldsRead(fields, true, [], rest);
      RecordOpens(FieldTokens(fields[0]), MoreFields(fields[1..]), rest);
    }
  }

  lemma OneField(f: Field, unnamed: bool, before: seq<Member>, after: seq<Token>)
    requires Legal(f.name) && LegalJson(f.value) && Head(after) in {Comma, RBrace}
    requires ReadValue(Tokens(f.value) + after) == Done(Meaning(f.value), after)
    ensures var members := Put(before, CString(StringMeaning(f.name)), Meaning(f.value));
      ReadMembers(FieldTokens(f) + after, unnamed, before) ==
      if Head(after) == RBrace then Done(Object(members), Rest(after))
      else ReadMembers(Rest(after), StringMeaning(f.name) == "", members)
  {
    hide ReadValue, ReadMembers, Tokens, Meaning, LegalJson, Legal, StringText, StringMeaning, CString, Put;
    hide DecodeString;
    var ts := FieldTokens(f) + after;
    StringReads(f.name);
    assert Rest(ts) == [Colon] + (Tokens(f.value) + after) && Rest(Rest(ts)) == Tokens(f.value) + after;
    ReadsMember(ts, unnamed, before, StringMeaning(f.name), Meaning(f.value), after);
  }

  lemma {:induction false} FieldsRead(fields: seq<Field>, unnamed: bool, before: seq<Member>, rest: seq<Token>)
    requires fields != [] && forall f :: f in fields ==> Legal(f.name) && LegalJson(f.value)
    ensures ReadMembers(FieldTokens(fields[0]) + (MoreFields(fields[1..]) + rest), unnamed, before) ==
            Done(Object(Assigned(fields, before)), rest)
    decreases fields, 1
  {
    hide ReadValue, ReadMembers, FieldTokens, Tokens, Meaning, LegalJson, Legal, StringText, StringMeaning;
    hide CString, Put, DecodeString;
    var f, more := fields[0], fields[1..];
    var after := MoreFields(more) + rest;
    TokensRead(f.value, after);
    OneField(f, unnamed, before, after);
    if more == [] {
      assert Rest(after) == rest;
    } else {
      assert Rest(after) == FieldTokens(more[0]) + (MoreFields(more[1..]) + rest);
      var before' := Put(before, CString(StringMeaning(f.name)), Meaning(f.value));
      FieldsRead(more, StringMeaning(f.name) == "", before', rest);
    }
  }

  // ----- tokens and white space, as text

  /** White space as section 2 of RFC 8259 has it. */
  predicate White(s: string) {
    forall c :: c in s ==> c in " \t\n\r"
  }

  /** Each of the four makes no difference, wherever a token may begin; and nothing else is skipped. */
  lemma WhiteSpace(c: char, s: string)
    ensures c in " \t\n\r" ==> SkipSpaces([c] + s) == SkipSpaces(s) && Lex([c] + s) == Lex(s)
    ensures c !in " \t\n\r" ==> SkipSpaces([c] + s) == [c] + s
  {
    assert ([c] + s)[1..] == s;
    if IsSpace(c) { LexSpace([c] + s); }
    FourSpaces(c);
  }

  /** A token that is printed as itself. */
  ghost predicate Sound(t: Token) {
    match t
    case Number(text) => IsNumberText(text)
    case Quoted(body) => forall b :: ScanString(body + "\"" + b) == Shut(body, b)
    case _ => t in {LBrace, RBrace, LBracket, RBracket, Comma, Colon, True, False, NullWord}
  }

  /** No number stands next to another. */
  ghost predicate Solid(ts: seq<Token>) {
    && (forall t :: t in ts ==> Sound(t))
    && forall i :: 0 <= i < |ts| - 1 ==> !(ts[i].Number? && ts[i + 1].Number?)
  }

  function TextOf(t: Token): string {
    match t
    case LBrace => "{"
    case RBrace => "}"
    case LBracket => "["
    case RBracket => "]"
    case Comma => ","
    case Colon => ":"
    case True => "true"
    case False => "false"
    case NullWord => "null"
    case Quoted(body) => "\"" + body + "\""
    case Number(text) => text
    case _ => ""
  }

  /** The tokens one after the other, each with some text before it. */
  function Spaced(ts: seq<Token>, gaps: seq<string>): string
    requires |gaps| == |ts|
  {
    if ts == [] then "" else gaps[0] + TextOf(ts[0]) + Spaced(ts[1..], gaps[1..])
  }

  lemma TokenEmits(t: Token)
    requires Sound(t)
    ensures if t.Number? then Emits(TextOf(t), [t]) else Firm(TextOf(t), [t]) && TextOf(t) != "" && Safe(TextOf(t))
  {
    hide Emits, Firm;
    match t {
      case Number(text) => EmitsNumber(text);
      case Quoted(body) => FirmQuoted(body);
      case True => FirmWord('t', "rue", True); assert "true" == ['t'] + "rue";
      case False => FirmWord('f', "alse", False); assert "false" == ['f'] + "alse";
      case NullWord => FirmWord('n', "ull", NullWord); assert "null" == ['n'] + "ull";
      case _ => FirmMark(t);
    }
  }

  lemma WhiteFirm(s: string)
    requires White(s)
    ensures Firm(s, []) && Safe(s)
  {
    FirmSpaces(s);
    if s != "" { assert s[0] in s; }
  }

  /** However much white space stands between them, the tokens of a text are read. */
  lemma {:induction false} SpacedLexes(ts: seq<Token>, gaps: seq<string>, last: string)
    requires Solid(ts) && |gaps| == |ts| && White(last) && forall g :: g in gaps ==> White(g)
    ensures Lex(Spaced(ts, gaps) + last) == ts
    ensures (ts != [] ==> !ts[0].Number?) ==> Safe(Spaced(ts, gaps) + last)
    decreases |ts|
  {
    hide Lex, Firm, Emits, TextOf, Sound, Solid, White, Safe;
    if ts == [] {
      WhiteFirm(last);
      WhiteLexes(last);
      assert Spaced(ts, gaps) + last == last;
    } else {
      var t, rest := ts[0], Spaced(ts[1..], gaps[1..]) + last;
      SolidTail(ts);
      SpacedLexes(ts[1..], gaps[1..], last);
      WhiteFirm(gaps[0]);
      TokenEmits(t);
      assert Spaced(ts, gaps) + last == gaps[0] + (TextOf(t) + rest);
      SpacedToken(gaps[0], t, rest);
      assert [t] + ts[1..] == ts;
    }
  }

  lemma SolidTail(ts: seq<Token>)
    requires Solid(ts) && ts != []
    ensures Sound(ts[0]) && Solid(ts[1..]) && (|ts| > 1 && ts[0].Number? ==> !ts[1].Number?)
  {
    hide Sound;
    var us := ts[1..];
    forall i | 0 <= i < |us| - 1 ensures !(us[i].Number? && us[i + 1].Number?) {
      assert us[i] == ts[i + 1] && us[i + 1] == ts[i + 1 + 1];
    }
  }

  lemma WhiteLexes(s: string)
    requires Firm(s, [])
    ensures Lex(s) == []
  {
    assert s + "" == s;
    assert Lex("") == [];
  }

  lemma SpacedToken(gap: string, t: Token, rest: string)
    requires Firm(gap, []) && Safe(gap)
    requires if t.Number? then Emits(TextOf(t), [t]) && Safe(rest) else Firm(TextOf(t), [t])
    ensures Lex(gap + (TextOf(t) + rest)) == [t] + Lex(rest)
    ensures TextOf(t) != "" && Safe(TextOf(t)) ==> Safe(gap + (TextOf(t) + rest))
  {
    hide Lex, TextOf;
    assert [] + Lex(TextOf(t) + rest) == Lex(TextOf(t) + rest);
  }

  // ----- every text

  /** A mark with a solid sequence on either side. */
  lemma SolidJoin(a: seq<Token>, t: Token, b: seq<Token>)
    requires Solid(a) && Solid(b) && t in {LBrace, RBrace, LBracket, RBracket, Comma, Colon}
    ensures Solid(a + [t] + b)
  {
    hide Sound;
    assert Sound(t) by { MarkIsSound(t); }
    var ts := a + [t] + b;
    forall i | 0 <= i < |ts| - 1 ensures !(ts[i].Number? && ts[i + 1].Number?) {
      if i + 1 < |a| {
        assert ts[i] == a[i] && ts[i + 1] == a[i + 1];
      } else if i > |a| {
        assert ts[i] == b[i - |a| - 1] && ts[i + 1] == b[i - |a| - 1 + 1];
      }
    }
  }

  lemma MarkIsSound(t: Token)
    requires t in {LBrace, RBrace, LBracket, RBracket, Comma, Colon}
    ensures Sound(t)
  {
  }

  lemma {:induction false} SolidTokens(j: Json)
    requires LegalJson(j)
    ensures Solid(Tokens(j))
    decreases j, 1
  {
    hide Solid, Sound, Legal, StringText, NumberText, LegalNumber;
    match j {
      case Word(t) => SolidWord(t);
      case Numeral(n) =>
        NumberReads(n);
        SolidNumber(NumberText(n));
      case Text(ps) => SolidString(ps);
      case List(elems) => SolidList(elems);
      case Record(fields) => SolidRecord(fields);
    }
  }

  lemma {:induction false} SolidList(elems: seq<Json>)
    requires forall e :: e in elems ==> LegalJson(e)
    ensures LegalJson(List(elems)) && Solid(Tokens(List(elems)))
    decreases elems, 3
  {
    hide Solid, Sound, Tokens, LegalJson, MoreTokens, Meaning;
    ListParts(elems);
    SolidEmpty(LBracket, RBracket);
    if elems != [] {
      SolidTokens(elems[0]);
      SolidMore(Tokens(elems[0]), elems[1..]);
      SolidJoin([], LBracket, Tokens(elems[0]) + MoreTokens(elems[1..]));
      assert Tokens(List(elems)) == [] + [LBracket] + (Tokens(elems[0]) + MoreTokens(elems[1..]));
    }
  }

  lemma {:induction false} SolidRecord(fields: seq<Field>)
    requires forall f :: f in fields ==> Legal(f.name) && LegalJson(f.value)
    ensures LegalJson(Record(fields)) && Solid(Tokens(Record(fields)))
    decreases fields, 4
  {
    hide Solid, Sound, Tokens, LegalJson, Legal, MoreFields, FieldTokens, Meaning, Assigned;
    RecordParts(fields);
    SolidEmpty(LBrace, RBrace);
    if fields != [] {
      SolidField(fields[0]);
      SolidMoreFields(FieldTokens(fields[0]), fields[1..]);
      SolidJoin([], LBrace, FieldTokens(fields[0]) + MoreFields(fields[1..]));
      assert Tokens(Record(fields)) == [] + [LBrace] + (FieldTokens(fields[0]) + MoreFields(fields[1..]));
    }
  }

  lemma SolidWord(t: Token)
    requires t in {NullWord, True, False}
    ensures Solid([t])
  {
  }

  lemma SolidNumber(text: string)
    requires IsNumberText(text)
    ensures Solid([Number(text)])
  {
  }

  lemma SolidString(ps: seq<Piece>)
    requires Legal(ps)
    ensures Solid([Quoted(StringText(ps))])
  {
    hide Legal;
    forall b ensures ScanString(StringText(ps) + "\"" + b) == Shut(StringText(ps), b) { StringScans(ps, b); }
  }

  lemma {:induction false} SolidMore(a: seq<Token>, elems: seq<Json>)
    requires Solid(a) && forall e :: e in elems ==> LegalJson(e)
    ensures Solid(a + MoreTokens(elems))
    decreases elems, 2
  {
    hide Solid, Sound, LegalJson, Tokens;
    SolidEmpty(LBracket, RBracket);
    if elems == [] {
      SolidJoin(a, RBracket, []);
      assert a + MoreTokens(elems) == a + [RBracket] + [];
    } else {
      SolidTokens(elems[0]);
      SolidJoin(a, Comma, Tokens(elems[0]));
      SolidMore(a + [Comma] + Tokens(elems[0]), elems[1..]);
      assert a + MoreTokens(elems) == a + [Comma] + Tokens(elems[0]) + MoreTokens(elems[1..]);
    }
  }

  lemma {:induction false} SolidField(f: Field)
    requires Legal(f.name) && LegalJson(f.value)
    ensures Solid(FieldTokens(f))
    decreases f, 2
  {
    hide Solid, Sound, LegalJson, Tokens, Legal, StringText;
    SolidString(f.name);
    SolidTokens(f.value);
    SolidJoin([Quoted(StringText(f.name))], Colon, Tokens(f.value));
    assert FieldTokens(f) == [Quoted(StringText(f.name))] + [Colon] + Tokens(f.value);
  }

  lemma {:induction false} SolidMoreFields(a: seq<Token>, fields: seq<Field>)
    requires Solid(a) && forall f :: f in fields ==> Legal(f.name) && LegalJson(f.value)
    ensures Solid(a + MoreFields(fields))
    decreases fields, 3
  {
    hide Solid, Sound, LegalJson, Legal, FieldTokens;
    SolidEmpty(LBracket, RBracket);
    if fields == [] {
      SolidJoin(a, RBrace, []);
      assert a + MoreFields(fields) == a + [RBrace] + [];
    } else {
      SolidField(fields[0]);
      SolidJoin(a, Comma, FieldTokens(fields[0]));
      SolidMoreFields(a + [Comma] + FieldTokens(fields[0]), fields[1..]);
      assert a + MoreFields(fields) == a + [Comma] + FieldTokens(fields[0]) + MoreFields(fields[1..]);
    }
  }

  /** Every text of RFC 8259, with any white space between its tokens, is parsed as what it means. */
  lemma EveryText(j: Json, gaps: seq<string>, last: string)
    requires LegalJson(j) && |gaps| == |Tokens(j)| && White(last) && forall g :: g in gaps ==> White(g)
    ensures Parse(Spaced(Tokens(j), gaps) + last) == Some(Meaning(j))
  {
    hide ReadValue, Lex, Tokens, Meaning, Spaced, White, LegalJson, Solid;
    SolidTokens(j);
    SpacedLexes(Tokens(j), gaps, last);
    TokensRead(j, []);
    assert Tokens(j) + [] == Tokens(j);
  }

  lemma {:induction false} SolidValue(v: Value)
    requires WellFormed(v)
    ensures Solid(TokensOf(v))
    decreases v, 1
  {
    hide Solid, Sound, Escape, IntText, IsNumberText, DecodeNumber, Ordered;
    match v {
      case Null => SolidWord(NullWord);
      case Bool(b) => SolidWord(if b then True else False);
      case Int(i) => IntTextIsNumber(i); SolidNumber(IntText(i));
      case UInt(u) => IntTextIsNumber(u); SolidNumber(IntText(u));
      case Real(text) => SolidNumber(text);
      case Str(s) => SolidEscaped(s);
      case Array(elems) => SolidArray(elems);
      case Object(members) => SolidObject(members);
    }
  }

  lemma {:induction false} SolidArray(elems: seq<Value>)
    requires forall e :: e in elems ==> WellFormed(e)
    ensures Solid(TokensOf(Array(elems)))
    decreases elems, 3
  {
    SolidEmpty(LBracket, RBracket);
    hide Solid, WellFormed;
    if elems != [] {
      SolidValue(elems[0]);
      SolidElements(TokensOf(elems[0]), elems[1..]);
      SolidJoin([], LBracket, TokensOf(elems[0]) + ElementTokens(elems[1..]));
      assert TokensOf(Array(elems)) == [] + [LBracket] + (TokensOf(elems[0]) + ElementTokens(elems[1..]));
    }
  }

  lemma {:induction false} SolidObject(members: seq<Member>)
    requires forall m :: m in members ==> WellFormed(m.value)
    ensures Solid(TokensOf(Object(members)))
    decreases members, 4
  {
    SolidEmpty(LBrace, RBrace);
    hide Solid, WellFormed, PairTokens;
    if members != [] {
      SolidPair(members[0]);
      SolidMembers(PairTokens(members[0]), members[1..]);
      SolidJoin([], LBrace, PairTokens(members[0]) + MemberTokens(members[1..]));
      assert TokensOf(Object(members)) == [] + [LBrace] + (PairTokens(members[0]) + MemberTokens(members[1..]));
    }
  }

  lemma SolidEmpty(open: Token, close: Token)
    requires (open, close) in {(LBracket, RBracket), (LBrace, RBrace)}
    ensures Solid([]) && Solid([open] + [close])
  {
  }

  lemma SolidEscaped(s: string)
    ensures Solid([Quoted(Escape(s))])
  {
    hide Escape;
    forall b ensures ScanString(Escape(s) + "\"" + b) == Shut(Escape(s), b) { ScanEscaped(s, b); }
  }

  lemma {:induction false} SolidElements(a: seq<Token>, elems: seq<Value>)
    requires Solid(a) && forall e :: e in elems ==> WellFormed(e)
    ensures Solid(a + ElementTokens(elems))
    decreases elems, 2
  {
    hide Solid, Sound, WellFormed, TokensOf;
    SolidEmpty(LBracket, RBracket);
    if elems == [] {
      SolidJoin(a, RBracket, []);
      assert a + ElementTokens(elems) == a + [RBracket] + [];
    } else {
      SolidValue(elems[0]);
      SolidJoin(a, Comma, TokensOf(elems[0]));
      SolidElements(a + [Comma] + TokensOf(elems[0]), elems[1..]);
      assert a + ElementTokens(elems) == a + [Comma] + TokensOf(elems[0]) + ElementTokens(elems[1..]);
    }
  }

  lemma {:induction false} SolidPair(m: Member)
    requires WellFormed(m.value)
    ensures Solid(PairTokens(m))
    decreases m, 2
  {
    hide Solid, Sound, WellFormed, TokensOf, Escape;
    SolidEscaped(m.name);
    SolidValue(m.value);
    SolidJoin([Quoted(Escape(m.name))], Colon, TokensOf(m.value));
    assert PairTokens(m) == [Quoted(Escape(m.name))] + [Colon] + TokensOf(m.value);
  }

  lemma {:induction false} SolidMembers(a: seq<Token>, members: seq<Member>)
    requires Solid(a) && forall m :: m in members ==> WellFormed(m.value)
    ensures Solid(a + MemberTokens(members))
    decreases members, 3
  {
    hide Solid, Sound, WellFormed, PairTokens;
    SolidEmpty(LBrace, RBrace);
    if members == [] {
      SolidJoin(a, RBrace, []);
      assert a + MemberTokens(members) == a + [RBrace] + [];
    } else {
      SolidPair(members[0]);
      SolidJoin(a, Comma, PairTokens(members[0]));
      SolidMembers(a + [Comma] + PairTokens(members[0]), members[1..]);
      assert a + MemberTokens(members) == a + [Comma] + PairTokens(members[0]) + MemberTokens(members[1..]);
    }
  }

  /** Also what the writers print, spaced out in any other way. */
  lemma PrintedSpaced(v: Value, gaps: seq<string>, last: string)
    requires WellFormed(v) && |gaps| == |TokensOf(v)| && White(last) && forall g :: g in gaps ==> White(g)
    ensures Parse(Spaced(TokensOf(v), gaps) + last) == Some(Canon(v))
  {
    hide ReadValue, Lex, TokensOf, Spaced, White, WellFormed, Solid, Canon;
    SolidValue(v);
    SpacedLexes(TokensOf(v), gaps, last);
    ReadsBack(v, []);
    assert TokensOf(v) + [] == TokensOf(v);
  }
}

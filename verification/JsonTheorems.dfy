/** What holds of every document, and of the code points in it. */
module JsonTheorems {
  import opened Bytes
  import opened JsonValue
  import opened JsonLexer
  import opened JsonReader
  import opened JsonText
  import opened JsonTokens
  import opened JsonWriter
  import opened Wrappers

  // ----- whatever is read can be written and read again

  ghost predicate RealFree(v: Value) {
    match v
    case Real(_) => false
    case Array(elems) => forall e :: e in elems ==> RealFree(e)
    case Object(members) => forall m :: m in members ==> RealFree(m.value)
    case _ => true
  }

  /** Such a value survives being written and read again. */
  ghost predicate Stable(v: Value) {
    RealFree(v) ==> WellFormed(v) && Exact(v)
  }

  lemma {:induction false} DigitsBound(s: string, threshold: nat, value: nat)
    requires value < 10 * threshold
    ensures var d := ReadDigits(s, threshold, value); d.Whole? ==> d.value < 10 * threshold
  {
    if s != "" && IsDigit(s[0]) && value < threshold {
      DigitsBound(s[1..], threshold, value * 10 + DigitValue(s[0]));
    }
  }

  lemma NumberIsStable(text: string)
    requires text != ""
    ensures DecodeNumber(text).Some? ==> Stable(DecodeNumber(text).value)
  {
    hide LooksDouble, ScansAsDouble, IsNumberText;
    var negative := text[0] == '-';
    DigitsBound(if negative then text[1..] else text, Threshold(negative), 0);
  }

  lemma {:induction false} CStringHasNoNul(s: string)
    ensures NUL !in CString(s)
  {
    if s != "" { CStringHasNoNul(s[1..]); }
  }

  ghost predicate StableResult(r: Parsed) {
    r.Done? ==> Stable(r.value)
  }

  lemma {:induction false} ReadsStable(ts: seq<Token>)
    ensures StableResult(ReadValue(ts))
    decreases |ts|, 1
  {
    hide DecodeNumber, DecodeString, CString, ReadElements, ReadMembers;
    var us := SkipComments(ts);
    match Head(us) {
      case LBrace => EmptyObjectStable(); ReadsStableMembers(Rest(us), true, []);
      case LBracket => if Head(Rest(us)) != RBracket { ReadsStableElements(Rest(us), []); }
      case Number(text) => if text != "" { NumberIsStable(text); }
      case Quoted(body) =>
        if DecodeString(body).Some? { CStringHasNoNul(DecodeString(body).value); }
      case _ =>
    }
  }

  lemma EmptyObjectStable()
    ensures Stable(Object([]))
  {
  }

  lemma StableSnoc(elems: seq<Value>, e: Value)
    requires Stable(Array(elems)) && Stable(e)
    ensures Stable(Array(elems + [e]))
  {
    if RealFree(Array(elems + [e])) {
      forall x | x in elems ensures RealFree(x) { assert x in elems + [e]; }
      assert e in elems + [e];
    }
  }

  lemma {:induction false} ReadsStableElements(ts: seq<Token>, elems: seq<Value>)
    requires Stable(Array(elems))
    ensures StableResult(ReadElements(ts, elems))
    decreases |ts|, 2
  {
    hide ReadValue, Stable;
    ReadsStable(ts);
    match ReadValue(ts)
    case Fail =>
    case Done(value, rest) =>
      StableSnoc(elems, value);
      var after := SkipComments(rest);
      if Head(after) != RBracket { ReadsStableElements(Rest(after), elems + [value]); }
  }

  /** The members before are kept apart from the question whether a real number is among them, because a
      later member of the same name may take its place. */
  ghost predicate StableMembers(ms: seq<Member>) {
    Ordered(ms) && forall m :: m in ms ==> NUL !in m.name && Stable(m.value)
  }

  lemma StablePut(ms: seq<Member>, name: string, value: Value)
    requires StableMembers(ms) && Stable(value) && NUL !in name
    ensures StableMembers(Put(ms, name, value))
  {
    hide Stable, Less, Put;
    PutIsUpdate(ms, name, value);
  }

  lemma StableObject(ms: seq<Member>)
    requires StableMembers(ms)
    ensures Stable(Object(ms))
  {
  }

  lemma {:induction false} ReadsStableMembers(ts: seq<Token>, unnamed: bool, ms: seq<Member>)
    requires StableMembers(ms)
    ensures StableResult(ReadMembers(ts, unnamed, ms))
    decreases |ts|, 0
  {
    hide ReadValue, Stable, StableMembers, DecodeString, CString, Put;
    StableObject(ms);
    var us := SkipComments(ts);
    if Head(us).Quoted? && DecodeString(Head(us).body).Some? && Head(Rest(us)) == Colon {
      var name := DecodeString(Head(us).body).value;
      var vs := Rest(Rest(us));
      ReadsStable(vs);
      match ReadValue(vs)
      case Fail =>
      case Done(value, rest) =>
        CStringHasNoNul(name);
        StablePut(ms, CString(name), value);
        StableObject(Put(ms, CString(name), value));
        var after := SkipComments(rest);
        if Head(rest) in {RBrace, Comma, Comment} && Head(after) != RBrace {
          ReadsStableMembers(Rest(after), name == "", Put(ms, CString(name), value));
        }
    }
  }

  /** Writing what was read from any document at all and reading it again gives the same value, if it holds
      no real number. */
  lemma ReparseIsIdentity(document: string, yaml: bool)
    ensures match Parse(document)
            case None => true
            case Some(v) => RealFree(v) ==> Parse(FastText(v, yaml) + "\n") == Some(v)
  {
    hide ReadValue, Lex, FastText;
    ReadsStable(Lex(document));
    if Parse(document).Some? && RealFree(Parse(document).value) {
      FastRoundTripExact(Parse(document).value, yaml);
    }
  }

  // ----- separators

  /** The elements of an array after the first, each behind its separator, and the closing bracket. */
  function Separated(elems: seq<Value>, separators: seq<Token>): seq<Token>
    requires |separators| == |elems|
  {
    if elems == [] then [RBracket]
    else [separators[0]] + TokensOf(elems[0]) + Separated(elems[1..], separators[1..])
  }

  lemma {:induction false} SeparatedReadBack(elems: seq<Value>, separators: seq<Token>,
    before: seq<Value>, rest: seq<Token>)
    requires elems != [] && (forall e :: e in elems ==> WellFormed(e)) && |separators| == |elems| - 1
    requires forall x :: x in separators ==> x !in {RBracket, Comment}
    ensures ReadElements(TokensOf(elems[0]) + (Separated(elems[1..], separators) + rest), before) ==
            Done(Array(before + CanonElems(elems)), rest)
    decreases |elems|
  {
    hide ReadValue, ReadElements, WellFormed, TokensOf, Canon;
    var more := elems[1..];
    var after := Separated(more, separators) + rest;
    assert more != [] ==> separators[0] in separators && Head(after) == separators[0];
    ReadsBack(elems[0], after);
    assert CanonElems(elems) == [Canon(elems[0])] + CanonElems(more);
    ReadsElement(TokensOf(elems[0]) + after, before, Canon(elems[0]), after);
    if more == [] {
      assert Rest(after) == rest && before + CanonElems(elems) == before + [Canon(elems[0])];
    } else {
      assert Rest(after) == TokensOf(more[0]) + (Separated(more[1..], separators[1..]) + rest);
      assert forall x :: x in separators[1..] ==> x in separators;
      assert forall e :: e in more ==> e in elems;
      SeparatedReadBack(more, separators[1..], before + [Canon(elems[0])], rest);
      assert before + [Canon(elems[0])] + CanonElems(more) == before + CanonElems(elems);
    }
  }

  /** The test for a bad separator is never true: whatever single tokens stand between the elements of an array,
      it is read as the same array as with commas. */
  lemma AnySeparator(elems: seq<Value>, separators: seq<Token>, rest: seq<Token>)
    requires elems != [] && (forall e :: e in elems ==> WellFormed(e)) && |separators| == |elems| - 1
    requires forall x :: x in separators ==> x !in {RBracket, Comment}
    ensures var ts := [LBracket] + (TokensOf(elems[0]) + (Separated(elems[1..], separators) + rest));
      ReadValue(ts) == Done(Array(CanonElems(elems)), rest) == ReadValue(TokensOf(Array(elems)) + rest)
  {
    hide ReadValue, ReadElements, WellFormed, TokensOf, Canon;
    var first := TokensOf(elems[0]) + (Separated(elems[1..], separators) + rest);
    FirstToken(elems[0]);
    ReadsBracket([LBracket] + first);
    assert Rest([LBracket] + first) == first;
    SeparatedReadBack(elems, separators, [], rest);
    assert [] + CanonElems(elems) == CanonElems(elems);
    ArrayReadsBack(elems, rest);
  }

  // ----- code points

  /** The code point that a well-formed UTF-8 sequence stands for (RFC 3629, section 3). */
  function DecodeUtf8(s: string): Option<nat> {
    if |s| == 1 && s[0] as int < 0x80 then Some(s[0] as int)
    else if |s| == 2 && 0xC2 <= s[0] as int < 0xE0 && IsTail(s[1]) then
      Some((s[0] as int - 0xC0) * 64 + Low6(s[1]))
    else if |s| == 3 && 0xE0 <= s[0] as int < 0xF0 && IsTail(s[1]) && IsTail(s[2])
      && (s[0] as int == 0xE0 ==> s[1] as int >= 0xA0) then
      Some(((s[0] as int - 0xE0) * 64 + Low6(s[1])) * 64 + Low6(s[2]))
    else if |s| == 4 && 0xF0 <= s[0] as int <= 0xF4 && IsTail(s[1]) && IsTail(s[2]) && IsTail(s[3])
      && (s[0] as int == 0xF0 ==> s[1] as int >= 0x90) && (s[0] as int == 0xF4 ==> s[1] as int <= 0x8F) then
      Some((((s[0] as int - 0xF0) * 64 + Low6(s[1])) * 64 + Low6(s[2])) * 64 + Low6(s[3]))
    else None
  }

  predicate IsTail(c: char) {
    0x80 <= c as int <= 0xBF
  }

  function Low6(c: char): nat
    requires IsTail(c)
  {
    c as int - 0x80
  }

  /** Six bits at a time. */
  lemma Sixes(cp: nat)
    ensures cp == cp / 64 * 64 + cp % 64 && cp / 64 == cp / 4096 * 64 + cp / 64 % 64
    ensures cp / 4096 == cp / 0x4_0000 * 64 + cp / 4096 % 64
  {
    assert cp / 64 / 64 == cp / 4096 && cp / 4096 / 64 == cp / 0x4_0000;
  }

  lemma ThreeDecode(high: nat, middle: nat, low: nat)
    requires middle < 64 && low < 64 && 0x7FF < (high * 64 + middle) * 64 + low <= 0xFFFF
    ensures DecodeUtf8([Byte(0xE0 + high), Byte(0x80 + middle), Byte(0x80 + low)])
      == Some((high * 64 + middle) * 64 + low)
  {
  }

  lemma FourDecode(top: nat, high: nat, middle: nat, low: nat)
    requires high < 64 && middle < 64 && low < 64
    requires 0xFFFF < ((top * 64 + high) * 64 + middle) * 64 + low <= 0x10_FFFF
    ensures DecodeUtf8([Byte(0xF0 + top), Byte(0x80 + high), Byte(0x80 + middle), Byte(0x80 + low)]) ==
            Some(((top * 64 + high) * 64 + middle) * 64 + low)
  {
  }

  lemma ThreeBytes(cp: nat)
    requires 0x7FF < cp <= 0xFFFF
    ensures DecodeUtf8(Utf8(cp)) == Some(cp)
  {
    hide DecodeUtf8;
    Sixes(cp);
    ThreeDecode(cp / 4096, cp / 64 % 64, cp % 64);
  }

  lemma FourBytes(cp: nat)
    requires 0xFFFF < cp <= 0x10_FFFF
    ensures DecodeUtf8(Utf8(cp)) == Some(cp)
  {
    hide DecodeUtf8;
    Sixes(cp);
    FourDecode(cp / 0x4_0000, cp / 4096 % 64, cp / 64 % 64, cp % 64);
  }

  /** Every code point is encoded in its one shortest form. */
  lemma Utf8IsShortest(cp: nat)
    requires cp <= 0x10_FFFF
    ensures DecodeUtf8(Utf8(cp)) == Some(cp)
  {
    if cp > 0xFFFF {
      FourBytes(cp);
    } else if cp > 0x7FF {
      ThreeBytes(cp);
    } else {
      assert cp == cp / 64 * 64 + cp % 64;
    }
  }

  /** The text h is the number n in four hexadecimal digits, each in either case. */
  predicate FourDigits(h: string, n: nat) {
    && n < 0x1_0000 && |h| == 4
    && Spells(h[0], n / 0x1000) && Spells(h[1], n / 0x100 % 16) && Spells(h[2], n / 16 % 16) && Spells(h[3], n % 16)
  }

  lemma FourDigitsReadBack(h: string, n: nat, rest: string)
    requires FourDigits(h, n)
    ensures Hex4(h + rest) == Some(n)
  {
    hide HexValue, Spells;
    HexDigits(n);
    HexDigit(h[0], n / 0x1000);
    HexDigit(h[1], n / 0x100 % 16);
    HexDigit(h[2], n / 16 % 16);
    HexDigit(h[3], n % 16);
  }

  lemma HexDigits(n: nat)
    ensures n == ((n / 0x1000 * 16 + n / 0x100 % 16) * 16 + n / 16 % 16) * 16 + n % 16
  {
    assert n / 0x1000 == n / 0x100 / 16 && n / 0x100 == n / 16 / 16;
  }

  lemma SurrogateHalves(cp: nat)
    requires 0x1_0000 <= cp <= 0x10_FFFF
    ensures var high, low := 0xD800 + (cp - 0x1_0000) / 0x400, 0xDC00 + (cp - 0x1_0000) % 0x400;
      0xD800 <= high <= 0xDBFF && 0xDC00 <= low <= 0xDFFF &&
      0x1_0000 + high % 0x400 * 0x400 + low % 0x400 == cp
  {
    var n := cp - 0x1_0000;
    assert (0xD800 + n / 0x400) % 0x400 == n / 0x400;
    assert (0xDC00 + n % 0x400) % 0x400 == n % 0x400;
  }

  /** A code point beyond the first 0x10000 written as a surrogate pair (RFC 8259, section 7), in digits of either
      case, is read back. */
  lemma SurrogatePairReadsBack(cp: nat, high: string, low: string, rest: string)
    requires 0x1_0000 <= cp <= 0x10_FFFF
    requires FourDigits(high, 0xD800 + (cp - 0x1_0000) / 0x400) && FourDigits(low, 0xDC00 + (cp - 0x1_0000) % 0x400)
    ensures ReadCodePoint(high + "\\u" + low + rest) == CodePoint(cp, 10)
  {
    SurrogateHalves(cp);
    PairReadsBack(0xD800 + (cp - 0x1_0000) / 0x400, 0xDC00 + (cp - 0x1_0000) % 0x400, high, low, rest);
  }

  lemma PairReadsBack(high: nat, low: nat, h: string, l: string, rest: string)
    requires 0xD800 <= high <= 0xDBFF && FourDigits(h, high) && FourDigits(l, low)
    ensures ReadCodePoint(h + "\\u" + l + rest) ==
            CodePoint(0x1_0000 + high % 0x400 * 0x400 + low % 0x400, 10)
  {
    hide Hex4, Spells;
    var s := h + "\\u" + l + rest;
    assert s == h + ("\\u" + l + rest);
    assert s[6..] == l + rest;
    FourDigitsReadBack(h, high, "\\u" + l + rest);
    FourDigitsReadBack(l, low, rest);
  }

  /** Any other code point of two bytes is read back from a single escape. */
  lemma EscapeSequenceReadsBack(cp: nat, h: string, rest: string)
    requires (cp < 0xD800 || 0xDC00 <= cp) && FourDigits(h, cp)
    ensures ReadCodePoint(h + rest) == CodePoint(cp, 4)
  {
    hide Hex4, Spells;
    FourDigitsReadBack(h, cp, rest);
  }

  /** And so are both in a string, where their UTF-8 form takes their place. */
  lemma EscapesInString(cp: nat, high: string, low: string, rest: string)
    requires cp <= 0x10_FFFF
    requires if cp >= 0x1_0000 then
        FourDigits(high, 0xD800 + (cp - 0x1_0000) / 0x400) && FourDigits(low, 0xDC00 + (cp - 0x1_0000) % 0x400)
      else !(0xD800 <= cp < 0xDC00) && FourDigits(high, cp)
    ensures var escape := if cp >= 0x1_0000 then "\\u" + high + "\\u" + low else "\\u" + high;
      DecodeString(escape + rest) == Prepend(Utf8(cp), DecodeString(rest))
  {
    hide ReadCodePoint, Utf8, FourDigits;
    if cp >= 0x1_0000 {
      var s := "\\u" + high + "\\u" + low + rest;
      assert s[2..] == high + "\\u" + low + rest && s[2 + 10..] == rest by { FourLong(high, low, cp); }
      SurrogatePairReadsBack(cp, high, low, rest);
    } else {
      var s := "\\u" + high + rest;
      assert s[2..] == high + rest && s[2 + 4..] == rest by { FourLong(high, high, cp); }
      EscapeSequenceReadsBack(cp, high, rest);
    }
  }

  lemma FourLong(high: string, low: string, cp: nat)
    requires FourDigits(high, if cp >= 0x1_0000 then 0xD800 + (cp - 0x1_0000) / 0x400 else cp)
    requires FourDigits(low, if cp >= 0x1_0000 then 0xDC00 + (cp - 0x1_0000) % 0x400 else cp)
    ensures |high| == |low| == 4
  {
  }
}

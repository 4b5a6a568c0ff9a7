/** The reader: what it makes of a sequence of tokens, and the class that works on the text. */
module JsonReader {
  import opened Bytes
  import opened JsonValue
  import opened JsonLexer
  import opened Wrappers

  // ----- numbers

  /** Whether sscanf("%lf") finds a number at the start of a number token. */
  predicate ScansAsDouble(text: string) {
    var t := if text != "" && text[0] == '-' then text[1..] else text;
    t != "" && (IsDigit(t[0]) || (t[0] == '.' && |t| > 1 && IsDigit(t[1])))
  }

  function DecodeDouble(text: string): Option<Value> {
    if ScansAsDouble(text) then Some(Real(text)) else None
  }

  predicate LooksDouble(text: string) {
    exists i :: 0 <= i < |text| && (text[i] in ".eE+" || (text[i] == '-' && i > 0))
  }

  datatype Digits = Whole(value: nat) | TooBig | NoDigit

  function DigitValue(c: char): int {
    c as int - '0' as int
  }

  /** The digit loop, `value` being what the digits before s amount to. */
  function ReadDigits(s: string, threshold: nat, value: nat): Digits {
    if s == "" then Whole(value)
    else if !IsDigit(s[0]) then NoDigit
    else if value >= threshold then TooBig
    else ReadDigits(s[1..], threshold, value * 10 + DigitValue(s[0]))
  }

  function Threshold(negative: bool): nat {
    (if negative then MAX_INT + 1 else MAX_UINT) / 10
  }

  function DecodeNumber(text: string): Option<Value>
    requires text != ""
  {
    if LooksDouble(text) then DecodeDouble(text)
    else
      var negative := text[0] == '-';
      match ReadDigits(if negative then text[1..] else text, Threshold(negative), 0)
      case NoDigit => None
      case TooBig => DecodeDouble(text)
      case Whole(value) =>
        if negative then Some(Int(0 - value)) else if value <= MAX_INT then Some(Int(value)) else Some(UInt(value))
  }

  // ----- strings

  /** decodeUnicodeEscapeSequence: the next four characters as a hexadecimal number. */
  function Hex4(s: string): (r: Option<nat>)
    ensures r.Some? ==> |s| >= 4 && r.value < 0x1_0000
  {
    if |s| < 4 then None
    else
      match (HexValue(s[0]), HexValue(s[1]), HexValue(s[2]), HexValue(s[3]))
      case (Some(a), Some(b), Some(c), Some(d)) =>
        assert a < 16 && b < 16 && c < 16 && d < 16;
        Some(((a * 16 + b) * 16 + c) * 16 + d)
      case _ => None
  }

  datatype CodePoint = BadCodePoint | CodePoint(value: nat, length: nat)

  /** decodeUnicodeCodePoint: a leading surrogate takes the escape that must follow it along. */
  function ReadCodePoint(s: string): (r: CodePoint)
    ensures r.CodePoint? ==> r.length <= |s| && r.value <= 0x10_FFFF
  {
    match Hex4(s)
    case None => BadCodePoint
    case Some(high) =>
      if !(0xD800 <= high <= 0xDBFF) then CodePoint(high, 4)
      else if |s| < 10 || s[4] != '\\' || s[5] != 'u' then BadCodePoint
      else
        match Hex4(s[6..])
        case None => BadCodePoint
        case Some(low) => CodePoint(0x1_0000 + high % 0x400 * 0x400 + low % 0x400, 10)
  }

  /** codePointToUTF8 */
  function Utf8(cp: nat): string {
    if cp <= 0x7F then [Byte(cp)]
    else if cp <= 0x7FF then [Byte(0xC0 + cp / 64), Byte(0x80 + cp % 64)]
    else if cp <= 0xFFFF then [Byte(0xE0 + cp / 4096), Byte(0x80 + cp / 64 % 64), Byte(0x80 + cp % 64)]
    else if cp <= 0x10_FFFF then
      [Byte(0xF0 + cp / 0x4_0000), Byte(0x80 + cp / 4096 % 64), Byte(0x80 + cp / 64 % 64), Byte(0x80 + cp % 64)]
    else ""
  }

  function SimpleEscape(c: char): Option<char> {
    if c == '"' || c == '/' || c == '\\' then Some(c)
    else if c == 'b' then Some(Byte(8))
    else if c == 'f' then Some(Byte(12))
    else if c == 'n' then Some(Byte(10))
    else if c == 'r' then Some(Byte(13))
    else if c == 't' then Some(Byte(9))
    else None
  }

  function Prepend(a: string, r: Option<string>): Option<string> {
    match r
    case None => None
    case Some(b) => Some(a + b)
  }

  /** decodeString on what stands between the quotes. */
  function DecodeString(s: string): Option<string>
    decreases |s|
  {
    if s == "" || s[0] == '"' then Some("")
    else if s[0] != '\\' then Prepend([s[0]], DecodeString(s[1..]))
    else if |s| == 1 then None
    else if s[1] == 'u' then
      match ReadCodePoint(s[2..])
      case BadCodePoint => None
      case CodePoint(cp, length) => Prepend(Utf8(cp), DecodeString(s[2 + length..]))
    else
      match SimpleEscape(s[1])
      case None => None
      case Some(c) => Prepend([c], DecodeString(s[2..]))
  }

  // ----- values

  datatype Parsed = Fail | Done(value: Value, rest: seq<Token>)

  function Head(ts: seq<Token>): Token {
    if ts == [] then End else ts[0]
  }

  function Rest(ts: seq<Token>): (r: seq<Token>)
    ensures |r| <= |ts| && (Head(ts) != End ==> |r| < |ts|)
  {
    if ts == [] then [] else ts[1..]
  }

  function SkipComments(ts: seq<Token>): (r: seq<Token>)
    ensures |r| <= |ts| && Head(r) != Comment
  {
    if Head(ts) == Comment then SkipComments(ts[1..]) else ts
  }

  function Scalar(v: Option<Value>, rest: seq<Token>): Parsed {
    match v
    case None => Fail
    case Some(value) => Done(value, rest)
  }

  function ReadValue(ts: seq<Token>): (r: Parsed)
    ensures r.Done? ==> |r.rest| < |ts|
    decreases |ts|, 1
  {
    var us := SkipComments(ts);
    var rest := Rest(us);
    match Head(us)
    case LBrace => ReadMembers(rest, true, [])
    case LBracket => if Head(rest) == RBracket then Done(Array([]), Rest(rest)) else ReadElements(rest, [])
    case Number(text) => if text == "" then Fail else Scalar(DecodeNumber(text), rest)
    case Quoted(body) =>
      (match DecodeString(body)
       case None => Fail
       case Some(s) => Done(Str(CString(s)), rest))
    case True => Done(Bool(true), rest)
    case False => Done(Bool(false), rest)
    case NullWord => Done(Null, rest)
    case _ => Fail
  }

  /** The loop of readArray. Whatever token follows an element but `]` is taken for a separator. */
  function ReadElements(ts: seq<Token>, elems: seq<Value>): (r: Parsed)
    ensures r.Done? ==> |r.rest| < |ts|
    decreases |ts|, 2
  {
    match ReadValue(ts)
    case Fail => Fail
    case Done(value, rest) =>
      var after := SkipComments(rest);
      if Head(after) == RBracket then Done(Array(elems + [value]), Rest(after))
      else ReadElements(Rest(after), elems + [value])
  }

  /** The loop of readObject; `unnamed` says that the last name read, if any, was empty. */
  function ReadMembers(ts: seq<Token>, unnamed: bool, members: seq<Member>): (r: Parsed)
    ensures r.Done? ==> |r.rest| < |ts|
    decreases |ts|, 0
  {
    var us := SkipComments(ts);
    if Head(us) == RBrace && unnamed then Done(Object(members), Rest(us))
    else if !Head(us).Quoted? then Fail
    else
      match DecodeString(Head(us).body)
      case None => Fail
      case Some(name) =>
        var vs := Rest(us);
        if Head(vs) != Colon then Fail
        else
          match ReadValue(Rest(vs))
          case Fail => Fail
          case Done(value, rest) =>
            var members' := Put(members, CString(name), value);
            if Head(rest) !in {RBrace, Comma, Comment} then Fail
            else
              var after := SkipComments(rest);
              if Head(after) == RBrace then Done(Object(members'), Rest(after))
              else ReadMembers(Rest(after), name == "", members')
  }

  /** parse: what follows the value does not matter. */
  function Parse(document: string): Option<Value> {
    match ReadValue(Lex(document))
    case Fail => None
    case Done(value, _) => Some(value)
  }
}

/** The reader's tokens, as functions of the text that is left. */
module JsonLexer {
  import opened Bytes
  import opened JsonValue

  /** A string token carries what stands between its quotes. */
  datatype Token =
    | LBrace | RBrace | LBracket | RBracket | Comma | Colon
    | True | False | NullWord
    | Quoted(body: string)
    | Number(text: string)
    | Comment | End | Error

  datatype Lexeme = Lexeme(token: Token, rest: string)
  datatype Scan = Open | Shut(body: string, rest: string)

  predicate IsSpace(c: char) {
    c == ' ' || c == '\t' || c == '\r' || c == '\n'
  }

  predicate IsDigit(c: char) {
    '0' <= c <= '9'
  }

  predicate InNumber(c: char) {
    IsDigit(c) || c == '.' || c == 'e' || c == 'E' || c == '+' || c == '-'
  }

  function SkipSpaces(s: string): (r: string)
    ensures |r| <= |s| && (r != "" ==> !IsSpace(r[0]))
  {
    if s != "" && IsSpace(s[0]) then SkipSpaces(s[1..]) else s
  }

  function NumberSpan(s: string): (n: nat)
    ensures n <= |s| && (forall i :: 0 <= i < n ==> InNumber(s[i])) && (n < |s| ==> !InNumber(s[n]))
  {
    if s != "" && InNumber(s[0]) then 1 + NumberSpan(s[1..]) else 0
  }

  function Extend(a: string, r: Scan): Scan {
    match r
    case Open => Open
    case Shut(body, rest) => Shut(a + body, rest)
  }

  /** The rest of a string token, its opening quote read: up to the first quote that is not escaped. */
  function ScanString(s: string): (r: Scan)
    ensures r.Shut? ==> |r.rest| < |s|
  {
    if s == "" then Open
    else if s[0] == '"' then Shut("", s[1..])
    else if s[0] == '\\' then
      if |s| == 1 then Open else Extend(s[..2], ScanString(s[2..]))
    else Extend(s[..1], ScanString(s[1..]))
  }

  /** The rest of a comment, its first two characters read. */
  function SkipCStyle(s: string): (r: Scan)
    ensures r.Shut? ==> |r.rest| < |s|
  {
    if |s| < 2 then Open
    else if s[0] == '*' && s[1] == '/' then Shut("", s[2..])
    else SkipCStyle(s[1..])
  }

  function SkipCppStyle(s: string): (r: string)
    ensures |r| <= |s|
  {
    if s == "" then "" else if s[0] == '\r' || s[0] == '\n' then s[1..] else SkipCppStyle(s[1..])
  }

  /** What is left behind by an unfinished comment: nothing. */
  function ScanComment(s: string): (l: Lexeme)
    ensures |l.rest| <= |s|
  {
    if s == "" then Lexeme(Error, "")
    else if s[0] == '*' then
      match SkipCStyle(s[1..])
      case Open => Lexeme(Error, "")
      case Shut(_, rest) => Lexeme(Comment, rest)
    else if s[0] == '/' then Lexeme(Comment, SkipCppStyle(s[1..]))
    else Lexeme(Error, s[1..])
  }

  function Word(s: string, word: string, token: Token): (l: Lexeme)
    ensures |l.rest| <= |s|
  {
    if word <= s then Lexeme(token, s[|word|..]) else Lexeme(Error, s)
  }

  /** The token that starts with the first character of s. */
  function TokenAt(s: string): (l: Lexeme)
    requires s != ""
    ensures |l.rest| < |s|
  {
    var c, r := s[0], s[1..];
    if c == '{' then Lexeme(LBrace, r)
    else if c == '}' then Lexeme(RBrace, r)
    else if c == '[' then Lexeme(LBracket, r)
    else if c == ']' then Lexeme(RBracket, r)
    else if c == '"' then
      match ScanString(r)
      case Open => Lexeme(Error, "")
      case Shut(body, rest) => Lexeme(Quoted(body), rest)
    else if c == '/' then ScanComment(r)
    else if IsDigit(c) || c == '-' then
      var n := NumberSpan(r);
      Lexeme(Number([c] + r[..n]), r[n..])
    else if c == 't' then Word(r, "rue", True)
    else if c == 'f' then Word(r, "alse", False)
    else if c == 'n' then Word(r, "ull", NullWord)
    else if c == ',' then Lexeme(Comma, r)
    else if c == ':' then Lexeme(Colon, r)
    else if c == NUL then Lexeme(End, r)
    else Lexeme(Error, r)
  }

  /** readToken: past the end of the text it keeps answering End. */
  function ReadToken(s: string): (l: Lexeme)
    ensures |l.rest| <= |s|
  {
    var r := SkipSpaces(s);
    if r == "" then Lexeme(End, "") else TokenAt(r)
  }

  /** All tokens of a text; after the last one the reader sees End for ever. */
  function Lex(s: string): seq<Token>
    decreases |s|
  {
    var r := SkipSpaces(s);
    if r == "" then [] else [TokenAt(r).token] + Lex(TokenAt(r).rest)
  }

  lemma LexToken(s: string, token: Token, rest: string)
    requires s != "" && !IsSpace(s[0]) && TokenAt(s) == Lexeme(token, rest)
    ensures Lex(s) == [token] + Lex(rest)
  {
    hide TokenAt;
  }

  lemma LexSpace(s: string)
    requires s != "" && IsSpace(s[0])
    ensures Lex(s) == Lex(s[1..])
  {
    hide TokenAt;
  }

  /** Reading a token takes the first of the tokens away. */
  lemma LexReads(s: string)
    ensures var l := ReadToken(s);
      && Lex(s) == (if SkipSpaces(s) == "" then [] else [l.token] + Lex(l.rest))
      && (SkipSpaces(s) == "" ==> l == Lexeme(End, ""))
      && (l.token != End ==> |l.rest| < |s|)
  {
    hide TokenAt;
  }

  // ----- texts that stand for a sequence of tokens

  /** A text that cannot prolong a number before it. */
  predicate Safe(s: string) {
    s == "" || !InNumber(s[0])
  }

  /** Whatever follows a, it lexes to `tokens`. */
  ghost predicate Firm(a: string, tokens: seq<Token>) {
    forall b :: Lex(a + b) == tokens + Lex(b)
  }

  /** Wherever a is followed by something that cannot prolong a number, it lexes to `tokens`. */
  ghost predicate Emits(a: string, tokens: seq<Token>) {
    forall b :: Safe(b) ==> Lex(a + b) == tokens + Lex(b)
  }

  lemma EmitsWhole(a: string, tokens: seq<Token>)
    requires Emits(a, tokens)
    ensures Lex(a) == tokens
  {
    assert a + "" == a;
    assert Lex("") == [];
  }

  lemma FirmThenFirm(a: string, x: seq<Token>, c: string, y: seq<Token>)
    requires Firm(a, x) && Firm(c, y)
    ensures Firm(a + c, x + y)
  {
    hide Lex;
    forall b ensures Lex(a + c + b) == x + y + Lex(b) {
      assert a + c + b == a + (c + b);
    }
  }

  lemma FirmThenEmits(a: string, x: seq<Token>, c: string, y: seq<Token>)
    requires Firm(a, x) && Emits(c, y)
    ensures Emits(a + c, x + y)
  {
    hide Lex;
    forall b | Safe(b) ensures Lex(a + c + b) == x + y + Lex(b) {
      assert a + c + b == a + (c + b);
    }
  }

  lemma EmitsThenFirm(a: string, x: seq<Token>, c: string, y: seq<Token>)
    requires Emits(a, x) && Firm(c, y) && c != "" && Safe(c)
    ensures Firm(a + c, x + y)
  {
    hide Lex;
    forall b ensures Lex(a + c + b) == x + y + Lex(b) {
      assert a + c + b == a + (c + b);
    }
  }

  /** White space is what section 2 of RFC 8259 says, and nothing else. */
  lemma FourSpaces(c: char)
    ensures IsSpace(c) <==> c in " \t\n\r"
  {
  }

  lemma {:induction false} FirmSpaces(s: string)
    requires forall c :: c in s ==> c in " \t\n\r"
    ensures Firm(s, [])
  {
    hide Lex, TokenAt, IsSpace;
    if s != "" {
      FourSpaces(s[0]);
      FirmSpaces(s[1..]);
      forall b ensures Lex(s + b) == [] + Lex(b) {
        assert (s + b)[1..] == s[1..] + b;
        assert s[0] in s;
        LexSpace(s + b);
      }
    } else {
      forall b ensures Lex(s + b) == [] + Lex(b) {
        assert s + b == b;
      }
    }
  }

  function Mark(token: Token): char
    requires token in {LBrace, RBrace, LBracket, RBracket, Comma, Colon}
  {
    match token
    case LBrace => '{'
    case RBrace => '}'
    case LBracket => '['
    case RBracket => ']'
    case Comma => ','
    case Colon => ':'
  }

  lemma FirmMark(token: Token)
    requires token in {LBrace, RBrace, LBracket, RBracket, Comma, Colon}
    ensures Firm([Mark(token)], [token]) && Safe([Mark(token)])
  {
    hide Lex;
    forall b ensures Lex([Mark(token)] + b) == [token] + Lex(b) {
      assert ([Mark(token)] + b)[1..] == b;
      LexToken([Mark(token)] + b, token, b);
    }
  }

  lemma FirmWord(first: char, tail: string, token: Token)
    requires (first, tail, token) in {('t', "rue", True), ('f', "alse", False), ('n', "ull", NullWord)}
    ensures Firm([first] + tail, [token])
  {
    hide Lex;
    forall b ensures Lex([first] + tail + b) == [token] + Lex(b) {
      assert ([first] + tail + b)[1..] == tail + b;
      WordMatches(tail, b, token);
      LexToken([first] + tail + b, token, b);
    }
  }

  lemma WordMatches(word: string, b: string, token: Token)
    ensures Word(word + b, word, token) == Lexeme(token, b)
  {
    assert (word + b)[|word|..] == b;
  }

  lemma {:induction false} SpanOfNumber(a: string, b: string)
    requires (forall i :: 0 <= i < |a| ==> InNumber(a[i])) && Safe(b)
    ensures NumberSpan(a + b) == |a|
  {
    if a == "" { assert a + b == b; } else {
      assert (a + b)[1..] == a[1..] + b;
      SpanOfNumber(a[1..], b);
    }
  }

  ghost predicate IsNumberText(text: string) {
    text != "" && (IsDigit(text[0]) || text[0] == '-') && forall i :: 0 <= i < |text| ==> InNumber(text[i])
  }

  lemma EmitsNumber(text: string)
    requires IsNumberText(text)
    ensures Emits(text, [Number(text)])
  {
    hide Lex;
    forall b | Safe(b) ensures Lex(text + b) == [Number(text)] + Lex(b) {
      assert (text + b)[1..] == text[1..] + b;
      SpanOfNumber(text[1..], b);
      assert [text[0]] + text[1..] == text;
      assert (text[1..] + b)[..|text| - 1] == text[1..];
      assert (text[1..] + b)[|text| - 1..] == b;
      LexToken(text + b, Number(text), b);
    }
  }

  lemma FirmQuoted(body: string)
    requires forall b :: ScanString(body + "\"" + b) == Shut(body, b)
    ensures Firm("\"" + body + "\"", [Quoted(body)])
  {
    hide Lex;
    forall b ensures Lex("\"" + body + "\"" + b) == [Quoted(body)] + Lex(b) {
      var s := "\"" + body + "\"" + b;
      assert s[1..] == body + "\"" + b;
      LexToken(s, Quoted(body), b);
    }
  }
}

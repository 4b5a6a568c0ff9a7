/** The class that reads a document: a cursor over the text, and a list of complaints. */
module JsonParser {
  import opened Bytes
  import opened JsonValue
  import opened JsonLexer
  import opened JsonReader
  import opened Wrappers

  datatype Complaint = NotAValue | NotANumber | BadEscape | BadSurrogate | NoColon | NoComma | NoName

  lemma HeadOfLex(s: string)
    ensures Head(Lex(s)) == JsonLexer.ReadToken(s).token
    ensures Rest(Lex(s)) == Lex(JsonLexer.ReadToken(s).rest)
  {
    hide Lex, TokenAt;
    LexReads(s);
    LexOfNothing();
  }

  /** What is left behind the first token that is waited for. */
  function Behind(ts: seq<Token>, until: Token): seq<Token> {
    if ts == [] || ts[0] == End then Rest(ts) else if ts[0] == until then ts[1..] else Behind(ts[1..], until)
  }

  lemma LexOfNothing()
    ensures Lex("") == []
  {
  }

  lemma LexSkipsSpaces(s: string)
    ensures Lex(JsonLexer.SkipSpaces(s)) == Lex(s)
  {
    hide TokenAt;
    SkipTwice(s);
  }

  lemma {:induction false} SkipTwice(s: string)
    ensures JsonLexer.SkipSpaces(JsonLexer.SkipSpaces(s)) == JsonLexer.SkipSpaces(s)
  {
    if s != "" && IsSpace(s[0]) { SkipTwice(s[1..]); }
  }

  /** The array check looks at one character, and that character tells the token. */
  lemma BracketAhead(s: string)
    requires JsonLexer.SkipSpaces(s) == s
    ensures Head(Lex(s)) == RBracket <==> s != "" && s[0] == ']'
  {
    hide Lex;
    HeadOfLex(s);
  }

  lemma {:induction false} SpanIs(s: string, n: nat)
    requires n <= |s| && (forall i :: 0 <= i < n ==> InNumber(s[i])) && (n < |s| ==> !InNumber(s[n]))
    ensures NumberSpan(s) == n
  {
    if n > 0 { SpanIs(s[1..], n - 1); }
  }

  /** The string token that began at `start`, when `at` is reached. */
  function ScannedTo(document: string, start: nat, at: nat): Scan
    requires start <= at <= |document|
  {
    Extend(document[start..at], ScanString(document[at..]))
  }

  lemma ScanFrom(document: string, start: nat)
    requires start <= |document|
    ensures ScannedTo(document, start, start) == ScanString(document[start..])
  {
    var r := ScanString(document[start..]);
    if r.Shut? { assert document[start..start] + r.body == r.body; }
  }

  lemma ScanEnd(document: string, start: nat)
    requires start <= |document|
    ensures ScannedTo(document, start, |document|) == Open
  {
  }

  lemma ScanStep(document: string, start: nat, at: nat)
    requires start <= at < |document|
    ensures document[at] == '"' ==> ScannedTo(document, start, at) == Shut(document[start..at], document[at + 1..])
    ensures document[at] == '\\' ==>
            ScannedTo(document, start, at) == if at + 1 == |document| then Open else ScannedTo(document, start, at + 2)
    ensures document[at] != '"' && document[at] != '\\' ==>
            ScannedTo(document, start, at) == ScannedTo(document, start, at + 1)
  {
    var here := document[at..];
    if document[at] == '"' {
      assert ScanString(here) == Shut("", document[at + 1..]);
      assert document[start..at] + "" == document[start..at];
    } else if document[at] != '\\' {
      ScanOn(document, start, at, 1);
    } else if at + 1 < |document| {
      ScanOn(document, start, at, 2);
    }
  }

  lemma ScanOn(document: string, start: nat, at: nat, n: nat)
    requires start <= at && at + n <= |document|
    requires ScanString(document[at..]) == Extend(document[at..][..n], ScanString(document[at..][n..]))
    ensures ScannedTo(document, start, at) == ScannedTo(document, start, at + n)
  {
    hide ScanString;
    assert document[at..][n..] == document[at + n..];
    var r := ScanString(document[at + n..]);
    if r.Shut? {
      assert document[start..at] + (document[at..][..n] + r.body) == document[start..at + n] + r.body;
    }
  }

  /** The loop over hexadecimal digits, n of them read. */
  function HexRun(s: string, n: nat): Option<nat>
    requires n <= |s|
  {
    if n == 0 then Some(0)
    else
      match (HexRun(s, n - 1), HexValue(s[n - 1]))
      case (Some(high), Some(digit)) => Some(high * 16 + digit)
      case _ => None
  }

  lemma FourHexDigits(s: string)
    requires |s| >= 4
    ensures Hex4(s) == HexRun(s, 4)
    ensures forall n :: 0 <= n <= 4 && HexRun(s, n) == None ==> HexRun(s, 4) == None
  {
    assert HexRun(s, 1) == HexValue(s[0]);
    assert HexRun(s, 4) ==
      match (HexRun(s, 3), HexValue(s[3])) case (Some(h), Some(d)) => Some(h * 16 + d) case _ => None;
    assert HexRun(s, 3) ==
      match (HexRun(s, 2), HexValue(s[2])) case (Some(h), Some(d)) => Some(h * 16 + d) case _ => None;
  }

  lemma PrependPrepend(a: string, b: string, r: Option<string>)
    ensures Prepend(a, Prepend(b, r)) == Prepend(a + b, r)
  {
    if r.Some? { assert a + (b + r.value) == a + b + r.value; }
  }

  /** The string decoded from what was read and what is left. */
  function DecodedTo(decoded: string, body: string, at: nat): Option<string>
    requires at <= |body|
  {
    Prepend(decoded, DecodeString(body[at..]))
  }

  lemma DecodeWhole(body: string)
    ensures DecodedTo("", body, 0) == DecodeString(body)
  {
    hide DecodeString;
    assert body[0..] == body;
    var r := DecodeString(body);
    if r.Some? { assert "" + r.value == r.value; }
  }

  /** A step of the decoder: `text` comes out of the next `n` characters. */
  lemma DecodeOn(decoded: string, body: string, at: nat, text: string, n: nat)
    requires at + n <= |body| && DecodeString(body[at..]) == Prepend(text, DecodeString(body[at..][n..]))
    ensures DecodedTo(decoded, body, at) == DecodedTo(decoded + text, body, at + n)
  {
    hide DecodeString;
    assert body[at..][n..] == body[at + n..];
    PrependPrepend(decoded, text, DecodeString(body[at + n..]));
  }

  lemma DecodePlain(decoded: string, body: string, at: nat)
    requires at < |body| && body[at] != '\\' && body[at] != '"'
    ensures DecodedTo(decoded, body, at) == DecodedTo(decoded + [body[at]], body, at + 1)
  {
    DecodeOn(decoded, body, at, [body[at]], 1);
  }

  lemma DecodeSimple(decoded: string, body: string, at: nat)
    requires at + 1 < |body| && body[at] == '\\' && body[at + 1] != 'u'
    ensures DecodedTo(decoded, body, at) ==
            match SimpleEscape(body[at + 1])
            case None => None
            case Some(c) => DecodedTo(decoded + [c], body, at + 2)
  {
    if SimpleEscape(body[at + 1]).Some? { DecodeOn(decoded, body, at, [SimpleEscape(body[at + 1]).value], 2); }
  }

  lemma DecodeUnicode(decoded: string, body: string, at: nat)
    requires at + 1 < |body| && body[at] == '\\' && body[at + 1] == 'u'
    ensures DecodedTo(decoded, body, at) ==
            match ReadCodePoint(body[at + 2..])
            case BadCodePoint => None
            case CodePoint(cp, length) => DecodedTo(decoded + Utf8(cp), body, at + 2 + length)
  {
    hide ReadCodePoint, Utf8;
    assert body[at..][2..] == body[at + 2..];
    match ReadCodePoint(body[at + 2..])
    case BadCodePoint =>
    case CodePoint(cp, length) =>
      assert body[at + 2..][length..] == body[at..][2 + length..];
      DecodeOn(decoded, body, at, Utf8(cp), 2 + length);
  }

  lemma DecodeDone(decoded: string, body: string, at: nat)
    requires at <= |body| && (at < |body| ==> body[at] == '"')
    ensures DecodedTo(decoded, body, at) == Some(decoded)
  {
    assert decoded + "" == decoded;
  }

  lemma DecodeLone(decoded: string, body: string, at: nat)
    requires at + 1 == |body| && body[at] == '\\'
    ensures DecodedTo(decoded, body, at) == None
  {
  }

  lemma DigitsStep(text: string, at: nat, threshold: nat, value: nat)
    requires at < |text|
    ensures ReadDigits(text[at..], threshold, value) ==
            if !IsDigit(text[at]) then NoDigit
            else if value >= threshold then TooBig
            else ReadDigits(text[at + 1..], threshold, value * 10 + DigitValue(text[at]))
  {
    assert text[at..][1..] == text[at + 1..];
  }

  /** What a call that answers `ok` and `value` and leaves `rest` has made of its tokens. */
  predicate Answers(r: Parsed, ok: bool, value: Value, rest: seq<Token>) {
    match r
    case Fail => !ok
    case Done(v, ts) => ok && value == v && rest == ts
  }

  class Reader {
    const document: string
    var current: nat
    var errors: seq<Complaint>

    predicate Valid()
      reads `current
    {
      current <= |document|
    }

    function Left(): string
      requires Valid()
      reads `current
    {
      document[current..]
    }

    constructor (document: string)
      ensures this.document == document && Valid() && current == 0 && errors == []
    {
      this.document := document;
      current := 0;
      errors := [];
    }

    // ----- the lexer

    method GetNextChar() returns (c: char)
      requires Valid()
      modifies `current
      ensures Valid()
      ensures old(Left()) == "" ==> c == NUL && current == old(current)
      ensures old(Left()) != "" ==> c == old(Left())[0] && current == old(current) + 1 && Left() == old(Left())[1..]
    {
      if current == |document| { return NUL; }
      c := document[current];
      current := current + 1;
    }

    /** The character under the cursor; the text ends with a NUL. */
    function Peek(): (c: char)
      requires Valid()
      reads `current
      ensures c == if Left() == "" then NUL else Left()[0]
    {
      if current == |document| then NUL else document[current]
    }

    method SkipSpaces()
      requires Valid()
      modifies `current
      ensures Valid() && current >= old(current) && Left() == JsonLexer.SkipSpaces(old(Left()))
    {
      while current != |document|
        invariant Valid() && current >= old(current)
        invariant JsonLexer.SkipSpaces(Left()) == JsonLexer.SkipSpaces(old(Left()))
        decreases |document| - current
      {
        if !IsSpace(document[current]) { break; }
        assert Left()[1..] == document[current + 1..];
        current := current + 1;
      }
    }

    method Match(pattern: string) returns (ok: bool)
      requires Valid()
      modifies `current
      ensures Valid() && (ok <==> pattern <= old(Left()))
      ensures Left() == if ok then old(Left())[|pattern|..] else old(Left())
    {
      if |document| - current < |pattern| { return false; }
      var index := |pattern|;
      while index > 0
        invariant 0 <= index <= |pattern| && current == old(current)
        invariant forall i :: index <= i < |pattern| ==> Left()[i] == pattern[i]
      {
        index := index - 1;
        if document[current + index] != pattern[index] {
          assert Left()[index] != pattern[index];
          return false;
        }
      }
      assert Left()[..|pattern|] == pattern;
      current := current + |pattern|;
      ok := true;
    }

    method ReadNumber()
      requires Valid()
      modifies `current
      ensures Valid() && current == old(current) + NumberSpan(old(Left()))
    {
      ghost var s := Left();
      while current != |document|
        invariant Valid() && current >= old(current)
        invariant forall i :: 0 <= i < current - old(current) ==> InNumber(s[i])
        decreases |document| - current
      {
        if !InNumber(document[current]) { break; }
        assert s[current - old(current)] == document[current];
        current := current + 1;
      }
      assert current < |document| ==> s[current - old(current)] == document[current];
      SpanIs(s, current - old(current));
    }

    method ReadString() returns (ok: bool)
      requires Valid()
      modifies `current
      ensures Valid() && current >= old(current)
      ensures match ScanString(old(Left()))
        case Open => !ok && Left() == ""
        case Shut(body, rest) =>
          ok && current > old(current) && body == document[old(current)..current - 1] && Left() == rest
    {
      hide ScanString, Extend;
      var c := NUL;
      ghost var start := current;
      ScanFrom(document, start);
      ScanEnd(document, start);
      while current != |document|
        invariant Valid() && current >= start == old(current) && c != '"'
        invariant ScanString(document[start..]) == ScannedTo(document, start, current)
        decreases |document| - current
      {
        ScanStep(document, start, current);
        c := GetNextChar();
        if c == '\\' {
          var _ := GetNextChar();
        } else if c == '"' {
          break;
        }
      }
      ok := c == '"';
    }

    method ReadCStyleComment() returns (ok: bool)
      requires Valid()
      modifies `current
      ensures Valid() && current >= old(current)
      ensures match SkipCStyle(old(Left()))
        case Open => !ok && Left() == ""
        case Shut(_, rest) => ok && Left() == rest
    {
      while current != |document|
        invariant Valid() && current >= old(current)
        invariant SkipCStyle(old(Left())) == SkipCStyle(Left())
        decreases |document| - current
      {
        ghost var here := Left();
        var c := GetNextChar();
        if c == '*' && Peek() == '/' {
          assert here[2..] == Left()[1..];
          break;
        }
      }
      var last := GetNextChar();
      ok := last == '/';
    }

    method ReadCppStyleComment()
      requires Valid()
      modifies `current
      ensures Valid() && current >= old(current) && Left() == SkipCppStyle(old(Left()))
    {
      while current != |document|
        invariant Valid() && current >= old(current)
        invariant SkipCppStyle(old(Left())) == SkipCppStyle(Left())
        decreases |document| - current
      {
        var c := GetNextChar();
        if c == '\r' || c == '\n' { return; }
      }
    }

    method ReadComment() returns (ok: bool)
      requires Valid()
      modifies `current
      ensures Valid() && current >= old(current)
      ensures Lexeme(if ok then Comment else Error, Left()) == ScanComment(old(Left()))
    {
      var c := GetNextChar();
      ok := false;
      if c == '*' {
        ok := ReadCStyleComment();
      } else if c == '/' {
        ReadCppStyleComment();
        ok := true;
      }
    }

    method ReadToken() returns (token: Token)
      requires Valid()
      modifies `current
      ensures Valid() && current >= old(current)
      ensures Lexeme(token, Left()) == JsonLexer.ReadToken(old(Left()))
      ensures token != End ==> current > old(current)
    {
      SkipSpaces();
      if Left() == "" {
        var _ := GetNextChar();
        token := End;
      } else {
        token := ReadTokenHere();
      }
    }

    /** The switch of readToken. */
    method ReadTokenHere() returns (token: Token)
      requires Valid() && Left() != ""
      modifies `current
      ensures Valid() && current > old(current)
      ensures Lexeme(token, Left()) == TokenAt(old(Left()))
    {
      var start := current;
      var c := GetNextChar();
      var ok := true;
      if c == '{' { token := LBrace; }
      else if c == '}' { token := RBrace; }
      else if c == '[' { token := LBracket; }
      else if c == ']' { token := RBracket; }
      else if c == '"' {
        ok := ReadString();
        token := Quoted(if ok then document[start + 1..current - 1] else "");
      } else if c == '/' {
        ok := ReadComment();
        token := Comment;
      } else if IsDigit(c) || c == '-' {
        ghost var r := Left();
        ReadNumber();
        assert document[start..current] == [c] + r[..current - start - 1];
        token := Number(document[start..current]);
      } else if c == 't' { ok := Match("rue"); token := True; }
      else if c == 'f' { ok := Match("alse"); token := False; }
      else if c == 'n' { ok := Match("ull"); token := NullWord; }
      else if c == ',' { token := Comma; }
      else if c == ':' { token := Colon; }
      else if c == NUL { token := End; }
      else { ok := false; token := Error; }
      if !ok { token := Error; }
    }

    method SkipCommentTokens() returns (token: Token)
      requires Valid()
      modifies `current
      ensures Valid() && current >= old(current)
      ensures var ts := SkipComments(Lex(old(Left())));
        token == Head(ts) && Lex(Left()) == Rest(ts)
      ensures token != End ==> current > old(current)
    {
      hide Lex, JsonLexer.ReadToken;
      ghost var ts := Lex(Left());
      HeadOfLex(Left());
      token := ReadToken();
      token := SkipMoreComments(token, ts);
    }

    /** The loops that skip comments behind a token that was read. */
    method SkipMoreComments(first: Token, ghost ts: seq<Token>) returns (token: Token)
      requires Valid() && first == Head(ts) && Lex(Left()) == Rest(ts)
      modifies `current
      ensures Valid() && current >= old(current)
      ensures token == Head(SkipComments(ts)) && Lex(Left()) == Rest(SkipComments(ts))
      ensures token == first || token == End || current > old(current)
    {
      hide Lex, JsonLexer.ReadToken;
      token := first;
      ghost var us := ts;
      while token == Comment
        invariant Valid() && current >= old(current)
        invariant token == Head(us) && Lex(Left()) == Rest(us) && SkipComments(us) == SkipComments(ts)
        invariant token == first || token == End || current > old(current)
        decreases |us|
      {
        us := Rest(us);
        HeadOfLex(Left());
        token := ReadToken();
      }
    }

    // ----- complaints

    method AddError(complaint: Complaint)
      modifies `errors
      ensures errors == old(errors) + [complaint]
    {
      errors := errors + [complaint];
    }

    /** Skips to the token that is waited for or to the end of the text; no complaint is added or lost. */
    method RecoverFromError(until: Token)
      requires Valid()
      modifies `current
      ensures Valid() && current >= old(current) && Lex(Left()) == Behind(Lex(old(Left())), until)
    {
      while true
        invariant Valid() && current >= old(current)
        invariant Behind(Lex(Left()), until) == Behind(Lex(old(Left())), until)
        decreases |document| - current
      {
        HeadOfLex(Left());
        var skip := ReadToken();
        if skip == until || skip == End { return; }
      }
    }

    method AddErrorAndRecover(complaint: Complaint, until: Token)
      requires Valid()
      modifies `current, `errors
      ensures Valid() && current >= old(current) && errors == old(errors) + [complaint]
      ensures Lex(Left()) == Behind(Lex(old(Left())), until)
    {
      AddError(complaint);
      RecoverFromError(until);
    }

    // ----- decoding

    method DecodeUnicodeEscapeSequence(body: string, at: nat) returns (ok: bool, unicode: nat, next: nat)
      requires at <= |body|
      modifies `errors
      ensures match Hex4(body[at..])
        case None => !ok && errors == old(errors) + [BadEscape]
        case Some(h) => ok && unicode == h && next == at + 4 && errors == old(errors)
    {
      unicode, next := 0, at;
      if |body| - at < 4 {
        AddError(BadEscape);
        ok := false;
        return;
      }
      ghost var s := body[at..];
      FourHexDigits(s);
      for index := 0 to 4
        invariant next == at + index && HexRun(s, index) == Some(unicode) && errors == old(errors)
      {
        var digit := HexValue(body[next]);
        assert body[next] == s[index];
        assert HexRun(s, index + 1) == match digit case None => None case Some(d) => Some(unicode * 16 + d);
        next := next + 1;
        if digit.None? {
          AddError(BadEscape);
          ok := false;
          return;
        }
        unicode := unicode * 16 + digit.value;
      }
      ok := true;
    }

    method DecodeUnicodeCodePoint(body: string, at: nat) returns (ok: bool, unicode: nat, next: nat)
      requires at <= |body|
      modifies `errors
      ensures match ReadCodePoint(body[at..])
        case BadCodePoint => !ok && |errors| == |old(errors)| + 1 && old(errors) <= errors
        case CodePoint(cp, length) => ok && unicode == cp && next == at + length && errors == old(errors)
    {
      hide Hex4;
      ok, unicode, next := DecodeUnicodeEscapeSequence(body, at);
      if ok && 0xD800 <= unicode <= 0xDBFF {
        if |body| - next < 6 || body[next] != '\\' || body[next + 1] != 'u' {
          AddError(BadSurrogate);
          ok := false;
          return;
        }
        assert body[at..][6..] == body[next + 2..];
        var low;
        ok, low, next := DecodeUnicodeEscapeSequence(body, next + 2);
        if ok { unicode := 0x1_0000 + unicode % 0x400 * 0x400 + low % 0x400; }
      }
    }

    method DecodeStringBody(body: string) returns (ok: bool, decoded: string)
      modifies `errors
      ensures match DecodeString(body)
        case None => !ok && |errors| == |old(errors)| + 1 && old(errors) <= errors
        case Some(s) => ok && decoded == s && errors == old(errors)
    {
      hide DecodedTo, DecodeString, ReadCodePoint, Utf8, SimpleEscape;
      decoded := "";
      var current := 0;
      DecodeWhole(body);
      while current != |body|
        invariant 0 <= current <= |body| && errors == old(errors)
        invariant DecodedTo(decoded, body, current) == DecodeString(body)
        decreases |body| - current
      {
        if body[current] == '"' { break; }
        if body[current] == '\\' {
          if current + 1 == |body| {
            DecodeLone(decoded, body, current);
            AddError(BadEscape);
            return false, "";
          }
          if body[current + 1] == 'u' {
            DecodeUnicode(decoded, body, current);
            var unicode;
            ok, unicode, current := DecodeUnicodeCodePoint(body, current + 2);
            if !ok { return false, ""; }
            decoded := decoded + Utf8(unicode);
          } else {
            DecodeSimple(decoded, body, current);
            var escape := SimpleEscape(body[current + 1]);
            if escape.None? {
              AddError(BadEscape);
              return false, "";
            }
            decoded := decoded + [escape.value];
            current := current + 2;
          }
        } else {
          DecodePlain(decoded, body, current);
          decoded := decoded + [body[current]];
          current := current + 1;
        }
      }
      DecodeDone(decoded, body, current);
      ok := true;
    }

    method DecodeNumberText(text: string) returns (ok: bool, value: Value)
      requires text != ""
      modifies `errors
      ensures match DecodeNumber(text)
        case None => !ok && errors == old(errors) + [NotANumber]
        case Some(v) => ok && value == v && errors == old(errors)
    {
      hide ScansAsDouble, ReadDigits;
      value := Null;
      var isDouble := false;
      for inspect := 0 to |text|
        invariant errors == old(errors)
        invariant isDouble <==> exists i :: 0 <= i < inspect && (text[i] in ".eE+" || (text[i] == '-' && i > 0))
      {
        isDouble := isDouble || text[inspect] in ".eE+" || (text[inspect] == '-' && inspect != 0);
      }
      if isDouble {
        ok, value := DecodeDoubleText(text);
        return;
      }
      var isNegative := text[0] == '-';
      var current := if isNegative then 1 else 0;
      ghost var digits := text[current..];
      assert !isNegative ==> digits == text;
      var threshold := Threshold(isNegative);
      var number := 0;
      while current < |text|
        invariant 0 <= current <= |text| && errors == old(errors)
        invariant number >= 0 && ReadDigits(text[current..], threshold, number) == ReadDigits(digits, threshold, 0)
      {
        DigitsStep(text, current, threshold, number);
        var c := text[current];
        current := current + 1;
        if !IsDigit(c) {
          AddError(NotANumber);
          ok := false;
          return;
        }
        if number >= threshold {
          ok, value := DecodeDoubleText(text);
          return;
        }
        number := number * 10 + DigitValue(c);
      }
      assert text[current..] == "";
      DigitsEnd(threshold, number);
      value := if isNegative then Int(-number) else if number <= MAX_INT then Int(number) else UInt(number);
      ok := true;
    }

    method DecodeDoubleText(text: string) returns (ok: bool, value: Value)
      modifies `errors
      ensures match DecodeDouble(text)
        case None => !ok && errors == old(errors) + [NotANumber]
        case Some(v) => ok && value == v && errors == old(errors)
    {
      value := Real(text);
      ok := ScansAsDouble(text);
      if !ok { AddError(NotANumber); }
    }

    // ----- values

    method ReadValue() returns (ok: bool, value: Value)
      requires Valid()
      modifies `current, `errors
      ensures Valid() && current >= old(current) && (ok ==> current > old(current))
      ensures Answers(JsonReader.ReadValue(Lex(old(Left()))), ok, value, Lex(Left()))
      ensures if ok then errors == old(errors) else |errors| == |old(errors)| + 1 && old(errors) <= errors
      decreases |document| - current, 1
    {
      hide Lex, DecodeNumber, DecodeString, CString, JsonReader.ReadElements, JsonReader.ReadMembers;
      ghost var ts := Lex(Left());
      var token := SkipCommentTokens();
      ValueStep(ts);
      ok, value := true, Null;
      match token {
        case LBrace => ok, value := ReadObject();
        case LBracket => ok, value := ReadArray();
        case Number(text) =>
          if text == "" { AddError(NotANumber); ok := false; } else { ok, value := DecodeNumberText(text); }
        case Quoted(body) =>
          var s;
          ok, s := DecodeStringBody(body);
          value := Str(CString(s));
        case True => value := Bool(true);
        case False => value := Bool(false);
        case NullWord =>
        case Comment => assert false;
        case _ => AddError(NotAValue); ok := false;
      }
    }

    /** The opening bracket is read. Whatever token stands between two elements passes for a comma. */
    method ReadArray() returns (ok: bool, value: Value)
      requires Valid()
      modifies `current, `errors
      ensures Valid() && current >= old(current)
      ensures Answers(AfterBracket(Lex(old(Left()))), ok, value, Lex(Left()))
      ensures if ok then errors == old(errors) else |errors| == |old(errors)| + 1 && old(errors) <= errors
      decreases |document| - current, 3
    {
      hide Lex, Answers, JsonReader.ReadValue, JsonReader.ReadElements, JsonReader.SkipComments;
      ghost var ts := Lex(Left());
      LexSkipsSpaces(Left());
      SkipTwice(Left());
      SkipSpaces();
      BracketAhead(Left());
      if Peek() == ']' {
        HeadOfLex(Left());
        var _ := ReadToken();
        DoneAnswers(Array([]), Lex(Left()));
        return true, Array([]);
      }
      ok, value := ReadElements();
    }

    method ReadElements() returns (ok: bool, value: Value)
      requires Valid()
      modifies `current, `errors
      ensures Valid() && current >= old(current)
      ensures Answers(JsonReader.ReadElements(Lex(old(Left())), []), ok, value, Lex(Left()))
      ensures if ok then errors == old(errors) else |errors| == |old(errors)| + 1 && old(errors) <= errors
      decreases |document| - current, 2
    {
      hide Lex, Answers, JsonReader.ReadValue, JsonReader.ReadElements, JsonReader.SkipComments;
      ghost var ts := Lex(Left());
      var elems: seq<Value> := [];
      value := Null;
      while true
        invariant Valid() && current >= old(current) && errors == old(errors)
        invariant JsonReader.ReadElements(Lex(Left()), elems) == JsonReader.ReadElements(ts, [])
        decreases |document| - current
      {
        ghost var here := Lex(Left());
        ElementStep(here, elems);
        var element;
        ok, element := ReadValue();
        ValueAnswered(here, ok, element, Lex(Left()));
        if !ok {
          RecoverFromError(RBracket);
          FailAnswers(value, Lex(Left()));
          return;
        }
        elems := elems + [element];
        var token := SkipCommentTokens();
        if token == RBracket {
          value := Array(elems);
          DoneAnswers(value, Lex(Left()));
          return;
        }
      }
    }

    /** The opening brace is read. */
    method ReadObject() returns (ok: bool, value: Value)
      requires Valid()
      modifies `current, `errors
      ensures Valid() && current >= old(current)
      ensures Answers(JsonReader.ReadMembers(Lex(old(Left())), true, []), ok, value, Lex(Left()))
      ensures if ok then errors == old(errors) else |errors| == |old(errors)| + 1 && old(errors) <= errors
      decreases |document| - current, 2
    {
      hide Lex, Answers, JsonReader.ReadValue, JsonReader.ReadMembers, JsonReader.SkipComments,
        Put, CString, DecodeString;
      ghost var ts := Lex(Left());
      var members: seq<Member> := [];
      var name := "";
      value := Null;
      while true
        invariant Valid() && current >= old(current) && errors == old(errors)
        invariant JsonReader.ReadMembers(Lex(Left()), name == "", members) == JsonReader.ReadMembers(ts, true, [])
        decreases |document| - current
      {
        ghost var here := Lex(Left());
        MemberStep(here, name == "", members);
        var tokenName := SkipCommentTokens();
        if tokenName == RBrace && name == "" {
          value := Object(members);
          DoneAnswers(value, Lex(Left()));
          return true, value;
        }
        if !tokenName.Quoted? {
          AddErrorAndRecover(NoName, RBrace);
          FailAnswers(value, Lex(Left()));
          return false, value;
        }
        ok, name := DecodeStringBody(tokenName.body);
        if !ok {
          RecoverFromError(RBrace);
          FailAnswers(value, Lex(Left()));
          return;
        }
        HeadOfLex(Left());
        var colon := ReadToken();
        if colon != Colon {
          AddErrorAndRecover(NoColon, RBrace);
          FailAnswers(value, Lex(Left()));
          return false, value;
        }
        ghost var valueTokens := Lex(Left());
        var member;
        ok, member := ReadValue();
        ValueAnswered(valueTokens, ok, member, Lex(Left()));
        if !ok {
          RecoverFromError(RBrace);
          FailAnswers(value, Lex(Left()));
          return;
        }
        members := Put(members, CString(name), member);
        ghost var after := Lex(Left());
        HeadOfLex(Left());
        var comma := ReadToken();
        if comma !in {RBrace, Comma, Comment} {
          AddErrorAndRecover(NoComma, RBrace);
          FailAnswers(value, Lex(Left()));
          return false, value;
        }
        comma := SkipMoreComments(comma, after);
        if comma == RBrace {
          value := Object(members);
          DoneAnswers(value, Lex(Left()));
          return true, value;
        }
      }
    }

    /** parse: it succeeds when no complaint is noted down, and otherwise exactly one is. */
    method ParseDocument() returns (ok: bool, root: Value)
      modifies `current, `errors
      ensures Valid()
      ensures match Parse(document)
        case None => !ok && |errors| == 1
        case Some(v) => ok && root == v && errors == []
    {
      hide Lex, JsonReader.ReadValue;
      current, errors := 0, [];
      assert Left() == document;
      ok, root := ReadValue();
      var _ := SkipCommentTokens();
    }
  }

  function AfterBracket(ts: seq<Token>): Parsed {
    if Head(ts) == RBracket then Done(Array([]), Rest(ts)) else ReadElements(ts, [])
  }

  lemma DoneAnswers(value: Value, rest: seq<Token>)
    ensures Answers(Done(value, rest), true, value, rest)
  {
  }

  lemma FailAnswers(value: Value, rest: seq<Token>)
    ensures Answers(Fail, false, value, rest)
  {
  }

  lemma ValueAnswered(ts: seq<Token>, ok: bool, value: Value, rest: seq<Token>)
    requires Answers(ReadValue(ts), ok, value, rest)
    ensures ReadValue(ts) == if ok then Done(value, rest) else Fail
  {
    hide ReadValue;
  }

  // ----- the reader, one step at a time

  function ValueFrom(us: seq<Token>): Parsed {
    var rest := Rest(us);
    match Head(us)
    case LBrace => ReadMembers(rest, true, [])
    case LBracket => AfterBracket(rest)
    case Number(text) => if text == "" then Fail else Scalar(DecodeNumber(text), rest)
    case Quoted(body) => StringFrom(DecodeString(body), rest)
    case True => Done(Bool(true), rest)
    case False => Done(Bool(false), rest)
    case NullWord => Done(Null, rest)
    case _ => Fail
  }

  function StringFrom(s: Option<string>, rest: seq<Token>): Parsed {
    if s.None? then Fail else Done(Str(CString(s.value)), rest)
  }

  lemma ValueStep(ts: seq<Token>)
    ensures ReadValue(ts) == ValueFrom(SkipComments(ts))
  {
    hide ReadMembers, ReadElements, DecodeNumber, DecodeString, CString;
  }

  function ElementsFrom(r: Parsed, elems: seq<Value>): Parsed {
    if r == Fail then Fail
    else
      var after := SkipComments(r.rest);
      if Head(after) == RBracket then Done(Array(elems + [r.value]), Rest(after))
      else ReadElements(Rest(after), elems + [r.value])
  }

  lemma ElementStep(ts: seq<Token>, elems: seq<Value>)
    ensures ReadElements(ts, elems) == ElementsFrom(ReadValue(ts), elems)
  {
    hide ReadValue;
  }

  function MembersFrom(us: seq<Token>, unnamed: bool, members: seq<Member>): Parsed {
    if Head(us) == RBrace && unnamed then Done(Object(members), Rest(us))
    else if !Head(us).Quoted? then Fail
    else
      var name := DecodeString(Head(us).body);
      if name.None? || Head(Rest(us)) != Colon then Fail
      else MembersAfter(ReadValue(Rest(Rest(us))), name.value, members)
  }

  function MembersAfter(r: Parsed, name: string, members: seq<Member>): Parsed {
    if r == Fail || Head(r.rest) !in {RBrace, Comma, Comment} then Fail
    else
      var after := SkipComments(r.rest);
      var members' := Put(members, CString(name), r.value);
      if Head(after) == RBrace then Done(Object(members'), Rest(after))
      else ReadMembers(Rest(after), name == "", members')
  }

  lemma MemberStep(ts: seq<Token>, unnamed: bool, members: seq<Member>)
    ensures ReadMembers(ts, unnamed, members) == MembersFrom(SkipComments(ts), unnamed, members)
  {
    hide ReadValue, Put, CString, DecodeString;
  }

  lemma DigitsEnd(threshold: nat, value: nat)
    ensures ReadDigits("", threshold, value) == Whole(value)
  {
  }
}
